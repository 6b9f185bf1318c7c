/**
 * The picker node's grid: an ordered sequence of columns, each an ordered
 * sequence of rows, and the edits its operators make to it.  Every edit is a
 * function from the old grid to the new; `None` stands for the IndexError an
 * out-of-range index raises, which leaves the grid as it was.
 */
module Grid {
  import opened Wrappers
  import opened Scene

  /**
   * One clickable cell.  Only `boneName` and `showBoneName` are saved; `picker`
   * (the momentary click flag), `modeSelect` and `armature` are runtime state
   * pushed down from the owning node.
   */
  datatype Row = Row(boneName: string, showBoneName: bool, picker: bool,
                     modeSelect: SelectMode, armature: Armature?)

  datatype Column = Column(size: real, rows: seq<Row>)

  /** A row as `rows.add()` creates it (the property defaults). */
  const DefaultRow := Row("", false, false, Single, null)

  /** A column as `picker_columns.add()` creates it. */
  const DefaultColumn := Column(1.0, [])

  /** A row added by an operator: it takes the node's select mode and armature. */
  function NewRow(mode: SelectMode, armature: Armature?): Row
  {
    DefaultRow.(modeSelect := mode, armature := armature)
  }

  /** The column the add-column operator creates: one pre-configured row. */
  function NewColumn(mode: SelectMode, armature: Armature?): Column
  {
    DefaultColumn.(rows := [NewRow(mode, armature)])
  }

  /**
   * The index a subscript `collection[index]` denotes: a negative index counts
   * from the end; anything outside the collection is an IndexError.
   */
  function Resolve(index: int, length: nat): (r: Option<nat>)
    ensures r.Some? <==> -(length as int) <= index < length
    ensures r.Some? ==> r.value < length
    ensures r.Some? ==> r.value == if index < 0 then index + length else index
  {
    if 0 <= index < length then Some(index)
    else if -(length as int) <= index < 0 then Some(index + length)
    else None
  }

  /** `collection.remove(i)` */
  function RemoveAt<T>(s: seq<T>, i: nat): (r: seq<T>)
    requires i < |s|
    ensures |r| == |s| - 1
    ensures forall k :: 0 <= k < i ==> r[k] == s[k]
    ensures forall k :: i <= k < |r| ==> r[k] == s[k + 1]
  {
    s[..i] + s[i + 1..]
  }

  /** `collection.move(from, to)`: take the item out and re-insert it at `to`. */
  function Move<T>(s: seq<T>, from: nat, to: nat): (r: seq<T>)
    requires from < |s| && to < |s|
    ensures |r| == |s| && r[to] == s[from]
    ensures forall k :: 0 <= k < |r| && k != to ==> r[k] == RemoveAt(s, from)[if k < to then k else k - 1]
    ensures multiset(r) == multiset(s)
  {
    var rest := RemoveAt(s, from);
    assert s == s[..from] + [s[from]] + s[from + 1..];
    assert multiset(s) == multiset(rest) + multiset{s[from]};
    assert rest == rest[..to] + rest[to..];
    assert multiset(rest[..to] + [s[from]] + rest[to..]) == multiset(rest[..to]) + multiset{s[from]} + multiset(rest[to..]);
    rest[..to] + [s[from]] + rest[to..]
  }

  /**
   * The add-column operator: append a new column and, unless `isAppend`,
   * move it from the end to the front.
   */
  function AddColumn(cols: seq<Column>, mode: SelectMode, armature: Armature?, isAppend: bool): (r: seq<Column>)
    ensures isAppend ==> r == cols + [NewColumn(mode, armature)]
    ensures !isAppend ==> r == [NewColumn(mode, armature)] + cols
  {
    var grown := cols + [NewColumn(mode, armature)];
    if isAppend then grown
    else
      assert RemoveAt(grown, |grown| - 1) == cols;
      Move(grown, |grown| - 1, 0)
  }

  /** The remove-column operator: `picker_columns.remove(index)`, which does not wrap. */
  function RemoveColumn(cols: seq<Column>, index: int): (r: Option<seq<Column>>)
    ensures r.Some? <==> 0 <= index < |cols|
    ensures r.Some? ==> |r.value| == |cols| - 1
    ensures r.Some? ==> forall k :: 0 <= k < |r.value| ==> r.value[k] == cols[if k < index then k else k + 1]
  {
    if 0 <= index < |cols| then Some(RemoveAt(cols, index)) else None
  }

  /** The add-row operator: `picker_columns[index].rows.add()` with the node's mode and armature. */
  function AddRow(cols: seq<Column>, index: int, mode: SelectMode, armature: Armature?): (r: Option<seq<Column>>)
    ensures r.Some? <==> -(|cols| as int) <= index < |cols|
    ensures r.Some? ==> |r.value| == |cols|
    ensures r.Some? ==> var c := Resolve(index, |cols|).value;
              && r.value[c] == cols[c].(rows := cols[c].rows + [NewRow(mode, armature)])
              && forall k :: 0 <= k < |cols| && k != c ==> r.value[k] == cols[k]
  {
    match Resolve(index, |cols|)
    case None => None
    case Some(c) => Some(cols[c := cols[c].(rows := cols[c].rows + [NewRow(mode, armature)])])
  }

  /**
   * The remove-row operator: the column subscript wraps, `rows.remove(row)`
   * does not.
   */
  function RemoveRow(cols: seq<Column>, column: int, row: int): (r: Option<seq<Column>>)
    ensures r.Some? <==> -(|cols| as int) <= column < |cols| && 0 <= row < |cols[Resolve(column, |cols|).value].rows|
    ensures r.Some? ==> |r.value| == |cols|
    ensures r.Some? ==> var c := Resolve(column, |cols|).value;
              && r.value[c].size == cols[c].size
              && r.value[c].rows == RemoveAt(cols[c].rows, row)
              && forall k :: 0 <= k < |cols| && k != c ==> r.value[k] == cols[k]
  {
    match Resolve(column, |cols|)
    case None => None
    case Some(c) =>
      if 0 <= row < |cols[c].rows| then Some(cols[c := cols[c].(rows := RemoveAt(cols[c].rows, row))])
      else None
  }

  /** The popup row operator: set the bound bone and its label flag of one row. */
  function SetRowBinding(cols: seq<Column>, column: int, row: int, boneName: string, showBoneName: bool)
    : (r: Option<seq<Column>>)
    ensures r.Some? <==> -(|cols| as int) <= column < |cols|
                         && -(|cols[Resolve(column, |cols|).value].rows| as int) <= row < |cols[Resolve(column, |cols|).value].rows|
    ensures r.Some? ==> |r.value| == |cols|
    ensures r.Some? ==> var c := Resolve(column, |cols|).value; var j := Resolve(row, |cols[c].rows|).value;
              && r.value[c].size == cols[c].size
              && |r.value[c].rows| == |cols[c].rows|
              && r.value[c].rows[j] == cols[c].rows[j].(boneName := boneName, showBoneName := showBoneName)
              && (forall k :: 0 <= k < |cols[c].rows| && k != j ==> r.value[c].rows[k] == cols[c].rows[k])
              && forall k :: 0 <= k < |cols| && k != c ==> r.value[k] == cols[k]
  {
    match Resolve(column, |cols|)
    case None => None
    case Some(c) =>
      match Resolve(row, |cols[c].rows|)
      case None => None
      case Some(j) =>
        var cell := cols[c].rows[j].(boneName := boneName, showBoneName := showBoneName);
        Some(cols[c := cols[c].(rows := cols[c].rows[j := cell])])
  }

  /** Every row of the grid with its select mode set to `mode` (the push-down of `mode_select`). */
  function WithModeSelect(cols: seq<Column>, mode: SelectMode): (r: seq<Column>)
    ensures |r| == |cols|
    ensures forall i :: 0 <= i < |cols| ==> r[i].size == cols[i].size && |r[i].rows| == |cols[i].rows|
    ensures forall i, j :: 0 <= i < |cols| && 0 <= j < |cols[i].rows| ==> r[i].rows[j] == cols[i].rows[j].(modeSelect := mode)
  {
    seq(|cols|, i requires 0 <= i < |cols| =>
      cols[i].(rows := seq(|cols[i].rows|, j requires 0 <= j < |cols[i].rows| => cols[i].rows[j].(modeSelect := mode))))
  }

  /** Every row of the grid bound to `armature` (the push-down of `object_armature`). */
  function WithArmature(cols: seq<Column>, armature: Armature?): (r: seq<Column>)
    ensures |r| == |cols|
    ensures forall i :: 0 <= i < |cols| ==> r[i].size == cols[i].size && |r[i].rows| == |cols[i].rows|
    ensures forall i, j :: 0 <= i < |cols| && 0 <= j < |cols[i].rows| ==> r[i].rows[j] == cols[i].rows[j].(armature := armature)
  {
    seq(|cols|, i requires 0 <= i < |cols| =>
      cols[i].(rows := seq(|cols[i].rows|, j requires 0 <= j < |cols[i].rows| => cols[i].rows[j].(armature := armature))))
  }

  /** The armatures the rows of a grid are bound to. */
  function RowArmatures(cols: seq<Column>): set<Armature>
  {
    set i, j | 0 <= i < |cols| && 0 <= j < |cols[i].rows| && cols[i].rows[j].armature != null :: cols[i].rows[j].armature
  }

  /** Pushing a mode down twice is pushing it once; the last push wins. */
  lemma {:induction false} ModeSelectLastWins(cols: seq<Column>, m1: SelectMode, m2: SelectMode)
    ensures WithModeSelect(WithModeSelect(cols, m1), m2) == WithModeSelect(cols, m2)
  {
    var a := WithModeSelect(WithModeSelect(cols, m1), m2);
    var b := WithModeSelect(cols, m2);
    assert |a| == |b|;
    forall i | 0 <= i < |a| ensures a[i] == b[i] {
      assert a[i].rows == b[i].rows;
    }
  }

  /** Adding a column at the front and removing index 0 gives the grid back. */
  lemma {:induction false} AddFrontThenRemove(cols: seq<Column>, mode: SelectMode, armature: Armature?)
    ensures RemoveColumn(AddColumn(cols, mode, armature, false), 0) == Some(cols)
  {
    var r := RemoveColumn(AddColumn(cols, mode, armature, false), 0);
    assert r.Some?;
    assert r.value == cols;
  }
}
