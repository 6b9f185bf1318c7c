/**
 * What the codec promises: the exact keys of each record type, that a saved
 * record loads back onto a fresh node of the same type and re-encodes, with
 * the saved parent name, to the same record, how the parent is resolved, and what the frame branch as
 * written does with a parent.
 */
module CodecProperties {
  import opened Wrappers
  import opened Json
  import opened Scene
  import opened Grid
  import opened Layers
  import opened Codec

  /** The keys every record starts with. */
  const BaseKeys: seq<string> := ["type"] + FieldKeys
  /** The base keys after `type`. */
  const FieldKeys: seq<string> := ["label", "location", "width", "height", "hide", "parent", "use_custom_color", "color"]

  /** The keys each node type appends. */
  function ExtraKeys(ext: Extension): seq<string>
  {
    match ext
    case PickerExt(_, _, _, _) => ["mode_compact", "mode_select", "picker_columns"]
    case LayerExt(_, _, _, _) => ["mode_compact", "layer_with_bone", "collection_bone_layers"]
    case BonePropsExt(_, _, _) => ["mode_compact", "bone_name"]
    case ObjectPropsExt(_, _) => ["mode_compact"]
    case FrameExt(_, _) => ["label_size", "shrink"]
    case RerouteExt => []
  }

  /** The keys of a list of steps, in order. */
  function StepKeys(steps: seq<Step>): (ks: seq<string>)
    ensures |ks| == |steps|
    ensures forall i :: 0 <= i < |steps| ==> ks[i] == Key(steps[i])
  {
    if steps == [] then [] else [Key(steps[0])] + StepKeys(steps[1..])
  }

  lemma {:induction false} StepKeysAppend(a: seq<Step>, b: seq<Step>)
    ensures StepKeys(a + b) == StepKeys(a) + StepKeys(b)
  {
    var l := StepKeys(a + b);
    var r := StepKeys(a) + StepKeys(b);
    forall i | 0 <= i < |l| ensures l[i] == r[i] {
      if i < |a| { assert (a + b)[i] == a[i]; } else { assert (a + b)[i] == b[i - |a|]; }
    }
  }

  lemma BaseStepKeys()
    ensures StepKeys(BaseSchema) == FieldKeys
  {
  }

  lemma PickerStepKeys()
    ensures StepKeys([ModeCompact, ModeSelect, PickerColumns]) == ["mode_compact", "mode_select", "picker_columns"]
  {
  }

  lemma LayerStepKeys()
    ensures StepKeys([ModeCompact, LayerWithBone, LayerNames]) == ["mode_compact", "layer_with_bone", "collection_bone_layers"]
  {
  }

  lemma BonePropsStepKeys()
    ensures StepKeys([ModeCompact, BoneName]) == ["mode_compact", "bone_name"]
  {
  }

  lemma FrameStepKeys()
    ensures StepKeys([LabelSize, Shrink]) == ["label_size", "shrink"]
  {
  }

  lemma ExtraStepKeys(ext: Extension)
    ensures StepKeys(Extra(ext)) == ExtraKeys(ext)
  {
    match ext
    case PickerExt(_, _, _, _) => PickerStepKeys();
    case LayerExt(_, _, _, _) => LayerStepKeys();
    case BonePropsExt(_, _, _) => BonePropsStepKeys();
    case ObjectPropsExt(_, _) => assert StepKeys([ModeCompact]) == ["mode_compact"];
    case FrameExt(_, _) => FrameStepKeys();
    case RerouteExt =>
  }

  lemma ConcatAssoc<T>(a: seq<T>, b: seq<T>, c: seq<T>)
    ensures a + (b + c) == (a + b) + c
  {
  }

  /** A record's keys are `type`, then the schema's keys. */
  lemma EncodeKeys<P>(s: NodeState<P>, parentName: Option<string>)
    ensures Keys(Encode(s, parentName).members) == ["type"] + StepKeys(Schema(s.ext))
  {
    var ks := Keys(Encode(s, parentName).members);
    var want := ["type"] + StepKeys(Schema(s.ext));
    forall i | 0 <= i < |ks| ensures ks[i] == want[i] {
      if i > 0 { assert want[i] == StepKeys(Schema(s.ext))[i - 1]; }
    }
  }

  /** A record's keys, in order: the base keys, then the node type's own. */
  lemma RecordKeys<P>(s: NodeState<P>, parentName: Option<string>)
    ensures Keys(Encode(s, parentName).members) == BaseKeys + ExtraKeys(s.ext)
  {
    EncodeKeys(s, parentName);
    StepKeysAppend(BaseSchema, Extra(s.ext));
    BaseStepKeys();
    ExtraStepKeys(s.ext);
    ConcatAssoc(["type"], FieldKeys, ExtraKeys(s.ext));
  }

  /** A key's length and first character; they tell all record keys apart. */
  function Fingerprint(k: string): (nat, char)
  {
    (|k|, if |k| > 0 then k[0] else ' ')
  }

  /** Distinct steps have distinct keys, except the two spellings of the parent step. */
  lemma StepKeysDiffer(a: Step, b: Step)
    requires a != b && !(a in {Parent, FrameParentAsWritten} && b in {Parent, FrameParentAsWritten})
    ensures Key(a) != Key(b)
  {
    assert Fingerprint(Key(a)) != Fingerprint(Key(b));
  }

  /** No step is saved under `type`. */
  lemma TypeKeyDiffers(a: Step)
    ensures Key(a) != "type"
  {
    assert Fingerprint(Key(a)) != Fingerprint("type");
  }

  predicate DistinctSteps(steps: seq<Step>)
  {
    forall i, j :: 0 <= i < j < |steps| ==> steps[i] != steps[j]
  }

  lemma SchemaDistinct(ext: Extension)
    ensures DistinctSteps(Schema(ext)) && FrameParentAsWritten !in Schema(ext)
  {
  }

  /** No record holds a key twice. */
  lemma RecordDistinct<P>(s: NodeState<P>, parentName: Option<string>)
    ensures DistinctKeys(Encode(s, parentName).members)
  {
    var ms := Encode(s, parentName).members;
    var steps := Schema(s.ext);
    SchemaDistinct(s.ext);
    forall i, j | 0 <= i < j < |ms| ensures ms[i].key != ms[j].key {
      if i == 0 { TypeKeyDiffers(steps[j - 1]); }
      else {
        assert steps[i - 1] != steps[j - 1];
        StepKeysDiffer(steps[i - 1], steps[j - 1]);
      }
    }
  }

  lemma GetDistinct(ms: seq<Member>, i: nat)
    requires DistinctKeys(ms) && i < |ms|
    ensures Get(ms, ms[i].key) == Some(ms[i].value)
  {
  }

  /** Each schema step's value can be read back from the record by the step's key. */
  lemma SavedSteps<P>(s: NodeState<P>, parentName: Option<string>)
    ensures Holds(Encode(s, parentName).members, Schema(s.ext), s, parentName)
  {
    var ms := Encode(s, parentName).members;
    var steps := Schema(s.ext);
    RecordDistinct(s, parentName);
    forall i | 0 <= i < |steps| ensures Get(ms, Key(steps[i])) == Some(Emit(steps[i], s, parentName)) {
      GetDistinct(ms, i + 1);
    }
  }

  /**
   * Each saved field can be read back by its key: the type id, then the value
   * each step emits.  In particular the parent is its name or null, and the
   * location and colour lists have the vectors' lengths.
   */
  lemma SavedFields<P>(s: NodeState<P>, parentName: Option<string>)
    ensures Get(Encode(s, parentName).members, "type") == Some(Str(TypeIdOf(s.ext)))
    ensures Holds(Encode(s, parentName).members, Schema(s.ext), s, parentName)
    ensures Get(Encode(s, parentName).members, "parent") == Some(if parentName.Some? then Str(parentName.value) else Null)
    ensures Get(Encode(s, parentName).members, "location") == Some(Reals(s.location))
    ensures |Reals(s.location).items| == |s.location| && |Reals(s.color).items| == |s.color|
  {
    var ms := Encode(s, parentName).members;
    assert Find(ms, "type") == 0;
    SavedSteps(s, parentName);
    SchemaBase(s.ext);
    var steps := Schema(s.ext);
    assert Get(ms, Key(steps[1])) == Some(Emit(steps[1], s, parentName));
    assert Get(ms, Key(steps[5])) == Some(Emit(steps[5], s, parentName));
  }

  lemma SchemaBase(ext: Extension)
    ensures |Schema(ext)| > 5 && Schema(ext)[1] == Location && Schema(ext)[5] == Parent
  {
    assert Schema(ext) == BaseSchema + Extra(ext);
  }

  lemma SchemaSameKind(a: Extension, b: Extension)
    requires SameKind(a, b)
    ensures Schema(a) == Schema(b) && TypeIdOf(a) == TypeIdOf(b)
  {
    match a
    case PickerExt(_, _, _, _) =>
    case LayerExt(_, _, _, _) =>
    case BonePropsExt(_, _, _) =>
    case ObjectPropsExt(_, _) =>
    case FrameExt(_, _) =>
    case RerouteExt =>
  }

  // Picker columns across a save and a load.

  /** A loaded row: the saved binding on a row with `rows.add()` defaults. */
  function ReloadedRow(r: Row): Row
  {
    DefaultRow.(boneName := r.boneName, showBoneName := r.showBoneName)
  }

  function ReloadedRows(rows: seq<Row>): (r: seq<Row>)
    ensures |r| == |rows|
    ensures forall j :: 0 <= j < |rows| ==> r[j] == ReloadedRow(rows[j])
  {
    seq(|rows|, j requires 0 <= j < |rows| => ReloadedRow(rows[j]))
  }

  function ReloadedColumn(c: Column): Column
  {
    Column(c.size, ReloadedRows(c.rows))
  }

  function Reloaded(cols: seq<Column>): (r: seq<Column>)
    ensures |r| == |cols|
    ensures forall i :: 0 <= i < |cols| ==> r[i] == ReloadedColumn(cols[i])
  {
    seq(|cols|, i requires 0 <= i < |cols| => ReloadedColumn(cols[i]))
  }

  /** A saved row loads its binding onto a default row. */
  lemma LoadRowEncoded(r: Row)
    ensures LoadRow(EncodeRow(r)) == Partial(ReloadedRow(r), None)
  {
    var ms := EncodeRow(r).members;
    assert Fingerprint(ms[0].key) != Fingerprint(ms[1].key);
    GetDistinct(ms, 0);
    GetDistinct(ms, 1);
  }

  /** A saved column loads its size and one row per saved row onto a default column. */
  lemma LoadColumnEncoded(c: Column)
    ensures LoadColumn(EncodeColumn(c)) == Partial(ReloadedColumn(c), None)
  {
    var ms := EncodeColumn(c).members;
    assert Fingerprint(ms[0].key) != Fingerprint(ms[1].key);
    GetDistinct(ms, 0);
    GetDistinct(ms, 1);
    LoadRowsEncoded(c.rows, []);
    assert [] + ReloadedRows(c.rows) == ReloadedRows(c.rows);
  }

  /** The entries already there stay in front; at most one entry is added per saved item. */
  lemma {:induction false} LoadEachPrefix<T>(load: Value -> Partial<T>, items: seq<Value>, acc: seq<T>)
    ensures var r := LoadEach(load, items, acc);
      |acc| <= |r.value| <= |acc| + |items| && r.value[..|acc|] == acc
    decreases |items|
  {
    if items != [] && load(items[0]).err.None? {
      var next := acc + [load(items[0]).value];
      LoadEachPrefix(load, items[1..], next);
      assert LoadEach(load, items, acc).value[..|acc|] == LoadEach(load, items, acc).value[..|next|][..|acc|];
    }
  }

  /** The entries loaded from the items, one per item. */
  function Loaded<T>(load: Value -> Partial<T>, items: seq<Value>): (r: seq<T>)
    ensures |r| == |items|
    ensures forall j :: 0 <= j < |items| ==> r[j] == load(items[j]).value
  {
    seq(|items|, j requires 0 <= j < |items| => load(items[j]).value)
  }

  /** When every saved item loads, exactly one entry is added per saved item, in order. */
  lemma {:induction false} LoadEachAll<T>(load: Value -> Partial<T>, items: seq<Value>, acc: seq<T>)
    requires forall j :: 0 <= j < |items| ==> load(items[j]).err.None?
    ensures LoadEach(load, items, acc) == Partial(acc + Loaded(load, items), None)
    decreases |items|
  {
    var loaded := Loaded(load, items);
    if items == [] {
      assert acc + loaded == acc;
    } else {
      var rest := items[1..];
      assert forall j :: 0 <= j < |rest| ==> rest[j] == items[j + 1];
      LoadEachAll(load, rest, acc + [loaded[0]]);
      assert acc + [loaded[0]] + Loaded(load, rest) == acc + loaded;
    }
  }

  /** A saved item that fails to load makes the whole loop fail. */
  lemma {:induction false} LoadEachFails<T>(load: Value -> Partial<T>, items: seq<Value>, acc: seq<T>, k: nat)
    requires k < |items| && load(items[k]).err.Some?
    ensures LoadEach(load, items, acc).err.Some?
    decreases k
  {
    if load(items[0]).err.None? {
      assert items[1..][k - 1] == items[k];
      LoadEachFails(load, items[1..], acc + [load(items[0]).value], k - 1);
    }
  }

  /** Loading saved rows appends, in order, one row per saved row carrying its binding. */
  lemma LoadRowsEncoded(rows: seq<Row>, acc: seq<Row>)
    ensures LoadRows(EncodeRows(rows), acc) == Partial(acc + ReloadedRows(rows), None)
  {
    var items := EncodeRows(rows);
    var load: Value -> Partial<Row> := LoadRow;
    forall j | 0 <= j < |items| ensures load(items[j]) == Partial(ReloadedRow(rows[j]), None) {
      LoadRowEncoded(rows[j]);
    }
    LoadEachAll(load, items, acc);
    assert Loaded(load, items) == ReloadedRows(rows);
  }

  /** Loading saved columns appends, in order, one column per saved column with its rows. */
  lemma LoadColumnsEncoded(cols: seq<Column>, acc: seq<Column>)
    ensures LoadColumns(EncodeColumns(cols), acc) == Partial(acc + Reloaded(cols), None)
  {
    var items := EncodeColumns(cols);
    var load: Value -> Partial<Column> := LoadColumn;
    forall i | 0 <= i < |items| ensures load(items[i]) == Partial(ReloadedColumn(cols[i]), None) {
      LoadColumnEncoded(cols[i]);
    }
    LoadEachAll(load, items, acc);
    assert Loaded(load, items) == Reloaded(cols);
  }

  /** Only a row's binding is saved: loaded rows save exactly as the originals. */
  lemma ReloadedEncodesSame(cols: seq<Column>)
    ensures EncodeColumns(Reloaded(cols)) == EncodeColumns(cols)
  {
    forall i | 0 <= i < |cols| ensures EncodeColumn(Reloaded(cols)[i]) == EncodeColumn(cols[i]) {
      assert EncodeRows(ReloadedRows(cols[i].rows)) == EncodeRows(cols[i].rows);
    }
  }

  /** Pushing the mode or the armature down to the rows does not change what is saved. */
  lemma PushDownEncodesSame(cols: seq<Column>, mode: SelectMode, armature: Armature?)
    ensures EncodeColumns(WithModeSelect(cols, mode)) == EncodeColumns(cols)
    ensures EncodeColumns(WithArmature(cols, armature)) == EncodeColumns(cols)
  {
    forall i | 0 <= i < |cols|
      ensures EncodeColumn(WithModeSelect(cols, mode)[i]) == EncodeColumn(cols[i])
      ensures EncodeColumn(WithArmature(cols, armature)[i]) == EncodeColumn(cols[i])
    {
      assert EncodeRows(WithModeSelect(cols, mode)[i].rows) == EncodeRows(cols[i].rows);
      assert EncodeRows(WithArmature(cols, armature)[i].rows) == EncodeRows(cols[i].rows);
    }
  }

  /** Saved layer names from position `k` on go to the same positions. */
  lemma {:induction false} RenameLayersEncoded(layers: seq<BoneLayer>, src: seq<BoneLayer>, k: nat)
    requires |layers| == |src| && k <= |src|
    ensures var r := RenameLayers(layers, EncodeLayerNames(src), k);
      && r.err.None?
      && forall i :: 0 <= i < |layers| ==>
           r.value[i] == if i < k then layers[i] else layers[i].(name := src[i].name)
    decreases |src| - k
  {
    if k < |src| {
      var next := layers[k := layers[k].(name := src[k].name)];
      RenameLayersEncoded(next, src, k + 1);
    }
  }

  /**
   * Renaming from a list of arbitrary values: it succeeds iff the list is no
   * longer than the table and every remaining entry is a string; then entry
   * `i` is named after the list's `i`-th string.  Entries before `k` and past
   * the end of the list keep their names, whether or not the load fails.
   */
  lemma {:induction false} RenameLayersSpec(layers: seq<BoneLayer>, items: seq<Value>, k: nat)
    requires k <= |items|
    ensures var r := RenameLayers(layers, items, k);
      && (r.err.None? <==> (k == |items| || |items| <= |layers|) && forall i :: k <= i < |items| ==> items[i].Str?)
      && (r.err.None? ==> forall i :: 0 <= i < |layers| ==>
            r.value[i] == if k <= i < |items| then layers[i].(name := items[i].s) else layers[i])
      && (forall i :: 0 <= i < |layers| && (i < k || |items| <= i) ==> r.value[i] == layers[i])
    decreases |items| - k
  {
    if k < |items| && k < |layers| && AsString(items[k]).Some? {
      var next := layers[k := layers[k].(name := AsString(items[k]).value)];
      RenameLayersSpec(next, items, k + 1);
    } else if k < |items| && k < |layers| {
      assert !items[k].Str?;
    }
  }

  lemma AsRealsReals(rs: seq<real>)
    ensures AsReals(Reals(rs), |rs|) == Some(rs)
  {
    var v := Reals(rs);
    assert forall i :: 0 <= i < |rs| ==> AsReal(v.items[i]) == Some(rs[i]);
    assert AsReals(v, |rs|).value == rs;
  }

  // The host's sizes.

  /** No step of `load` changes the host's sizes: vectors are assigned whole, layers are renamed in place. */
  lemma ApplySized<P>(st: Step, s: NodeState<P>, v: Option<Value>, parents: map<string, P>)
    requires Fits(st, s.ext) && Sized(s)
    ensures Sized(Apply(st, s, v, parents).value)
  {
  }

  /** A whole `load`, whether it stops early or not, keeps the host's sizes. */
  lemma {:induction false} LoadStepsSized<P>(steps: seq<Step>, s: NodeState<P>, rec: seq<Member>, parents: map<string, P>)
    requires AllFit(steps, s.ext) && Sized(s)
    ensures Sized(LoadSteps(steps, s, rec, parents).value)
    decreases |steps|
  {
    if steps != [] {
      var r := Apply(steps[0], s, Get(rec, Key(steps[0])), parents);
      ApplySized(steps[0], s, Get(rec, Key(steps[0])), parents);
      if r.err.None? {
        assert AllFit(steps[1..], r.value.ext) by {
          forall i | 0 <= i < |steps[1..]| ensures Fits(steps[1..][i], r.value.ext) {
            FitsSameKind(steps[1..][i], s.ext, r.value.ext);
          }
        }
        LoadStepsSized(steps[1..], r.value, rec, parents);
      }
    }
  }

  // The round trip.

  /** What a save-then-load cycle needs: the host's vector sizes, a resolvable parent name, matching layer tables. */
  predicate Restorable<P>(s: NodeState<P>, t: NodeState<P>, parentName: Option<string>, parents: map<string, P>)
  {
    && |s.location| == LocationSize && |s.color| == ColorSize
    && SameKind(s.ext, t.ext)
    && (parentName.Some? ==> parentName.value != "" && parentName.value in parents)
    && (s.ext.LayerExt? ==> |t.ext.layers| == |s.ext.layers|)
  }

  function RestoredParent<P>(parentName: Option<string>, parents: map<string, P>): Option<P>
    requires parentName.Some? ==> parentName.value in parents
  {
    if parentName.Some? then Some(parents[parentName.value]) else None
  }

  /** The layer table `layers` with the names of `src`, position by position. */
  function Renamed(layers: seq<BoneLayer>, src: seq<BoneLayer>): (r: seq<BoneLayer>)
    requires |layers| == |src|
    ensures |r| == |layers|
    ensures forall i :: 0 <= i < |r| ==> r[i] == layers[i].(name := src[i].name)
  {
    seq(|layers|, i requires 0 <= i < |layers| => layers[i].(name := src[i].name))
  }

  /**
   * The type-specific state a load of `se`'s record leaves on `te`: the saved
   * fields come from `se`; the armature, `has_bone` and the rows' mode and
   * armature are not saved and come from `te` or the row defaults.
   */
  function RestoredExt(se: Extension, te: Extension): Extension
    requires SameKind(se, te) && (se.LayerExt? ==> |te.layers| == |se.layers|)
  {
    match se
    case PickerExt(mc, ms, _, cols) => te.(modeCompact := mc, modeSelect := ms, columns := Reloaded(cols))
    case LayerExt(mc, _, lwb, layers) => te.(modeCompact := mc, layerWithBone := lwb, layers := Renamed(te.layers, layers))
    case BonePropsExt(mc, _, bn) => te.(modeCompact := mc, boneName := bn)
    case ObjectPropsExt(mc, _) => te.(modeCompact := mc)
    case FrameExt(ls, sh) => te.(labelSize := ls, shrink := sh)
    case RerouteExt => te
  }

  /** The base fields a load of `s`'s record leaves on `t`. */
  function RestoredBase<P>(s: NodeState<P>, t: NodeState<P>, parentName: Option<string>, parents: map<string, P>): NodeState<P>
    requires Restorable(s, t, parentName, parents)
  {
    t.(labelText := s.labelText, location := s.location, width := s.width, height := s.height, hidden := s.hidden,
       parent := RestoredParent(parentName, parents), useCustomColor := s.useCustomColor, color := s.color)
  }

  /** The whole state a load of `s`'s record leaves on `t`. */
  function Restored<P>(s: NodeState<P>, t: NodeState<P>, parentName: Option<string>, parents: map<string, P>): NodeState<P>
    requires Restorable(s, t, parentName, parents)
  {
    RestoredBase(s, t, parentName, parents).(ext := RestoredExt(s.ext, t.ext))
  }

  /** `rec` holds, under each step's key, the value the step saves from `s`. */
  predicate Holds<P>(rec: seq<Member>, steps: seq<Step>, s: NodeState<P>, parentName: Option<string>)
    requires AllFit(steps, s.ext)
  {
    forall i :: 0 <= i < |steps| ==> Get(rec, Key(steps[i])) == Some(Emit(steps[i], s, parentName))
  }

  predicate NoAsWrittenStep(steps: seq<Step>)
  {
    forall i :: 0 <= i < |steps| ==> steps[i] != FrameParentAsWritten
  }

  /** What loading the value one step saved from `s` does to `t`. */
  function Transfer<P>(st: Step, s: NodeState<P>, t: NodeState<P>, parentName: Option<string>, parents: map<string, P>)
    : NodeState<P>
    requires Restorable(s, t, parentName, parents) && Fits(st, s.ext) && st != FrameParentAsWritten
  {
    match st
    case Label => t.(labelText := s.labelText)
    case Location => t.(location := s.location)
    case Width => t.(width := s.width)
    case Height => t.(height := s.height)
    case Hide => t.(hidden := s.hidden)
    case Parent => t.(parent := RestoredParent(parentName, parents))
    case UseCustomColor => t.(useCustomColor := s.useCustomColor)
    case Color => t.(color := s.color)
    case ModeCompact => t.(ext := t.ext.(modeCompact := s.ext.modeCompact))
    case ModeSelect =>
      t.(ext := t.ext.(modeSelect := s.ext.modeSelect, columns := WithModeSelect(t.ext.columns, s.ext.modeSelect)))
    case PickerColumns => t.(ext := t.ext.(columns := Reloaded(s.ext.columns)))
    case LayerWithBone => t.(ext := t.ext.(layerWithBone := s.ext.layerWithBone))
    case LayerNames => t.(ext := t.ext.(layers := Renamed(t.ext.layers, s.ext.layers)))
    case BoneName => t.(ext := t.ext.(boneName := s.ext.boneName))
    case LabelSize => t.(ext := t.ext.(labelSize := s.ext.labelSize))
    case Shrink => t.(ext := t.ext.(shrink := s.ext.shrink))
  }

  /** A base field's saved value loads back. */
  lemma ApplyTransferBase<P>(st: Step, s: NodeState<P>, t: NodeState<P>, parentName: Option<string>, parents: map<string, P>)
    requires Restorable(s, t, parentName, parents) && st in BaseSchema
    ensures Apply(st, t, Some(Emit(st, s, parentName)), parents) == Partial(Transfer(st, s, t, parentName, parents), None)
    ensures Restorable(s, Transfer(st, s, t, parentName, parents), parentName, parents)
  {
    if st == Location { AsRealsReals(s.location); }
    if st == Color { AsRealsReals(s.color); }
  }

  /** The picker's columns load back as `Reloaded`. */
  lemma ApplyTransferColumns<P>(s: NodeState<P>, t: NodeState<P>, parentName: Option<string>, parents: map<string, P>)
    requires Restorable(s, t, parentName, parents) && s.ext.PickerExt?
    ensures Apply(PickerColumns, t, Some(Emit(PickerColumns, s, parentName)), parents)
              == Partial(Transfer(PickerColumns, s, t, parentName, parents), None)
  {
    var v := Emit(PickerColumns, s, parentName);
    assert Iterate(v) == Some(EncodeColumns(s.ext.columns));
    LoadColumnsEncoded(s.ext.columns, []);
    assert [] + Reloaded(s.ext.columns) == Reloaded(s.ext.columns);
    assert ApplyValue(PickerColumns, t, v, parents) == Partial(t.(ext := t.ext.(columns := Reloaded(s.ext.columns))), None);
  }

  /** The layer names load back position by position. */
  lemma ApplyTransferLayerNames<P>(s: NodeState<P>, t: NodeState<P>, parentName: Option<string>, parents: map<string, P>)
    requires Restorable(s, t, parentName, parents) && s.ext.LayerExt?
    ensures Apply(LayerNames, t, Some(Emit(LayerNames, s, parentName)), parents)
              == Partial(Transfer(LayerNames, s, t, parentName, parents), None)
  {
    RenameLayersEncoded(t.ext.layers, s.ext.layers, 0);
    assert RenameLayers(t.ext.layers, EncodeLayerNames(s.ext.layers), 0).value == Renamed(t.ext.layers, s.ext.layers);
  }

  /** A type-specific field's saved value loads back. */
  lemma ApplyTransferExtra<P>(st: Step, s: NodeState<P>, t: NodeState<P>, parentName: Option<string>, parents: map<string, P>)
    requires Restorable(s, t, parentName, parents) && Fits(st, s.ext) && st !in BaseSchema && st != FrameParentAsWritten
    ensures Fits(st, t.ext)
    ensures Apply(st, t, Some(Emit(st, s, parentName)), parents) == Partial(Transfer(st, s, t, parentName, parents), None)
    ensures Restorable(s, Transfer(st, s, t, parentName, parents), parentName, parents)
  {
    FitsSameKind(st, s.ext, t.ext);
    if st == PickerColumns { ApplyTransferColumns(s, t, parentName, parents); }
    if st == LayerNames { ApplyTransferLayerNames(s, t, parentName, parents); }
  }

  lemma ApplyTransfer<P>(st: Step, s: NodeState<P>, t: NodeState<P>, parentName: Option<string>, parents: map<string, P>)
    requires Restorable(s, t, parentName, parents) && Fits(st, s.ext) && st != FrameParentAsWritten
    ensures Fits(st, t.ext)
    ensures Apply(st, t, Some(Emit(st, s, parentName)), parents) == Partial(Transfer(st, s, t, parentName, parents), None)
    ensures Restorable(s, Transfer(st, s, t, parentName, parents), parentName, parents)
  {
    if st in BaseSchema { ApplyTransferBase(st, s, t, parentName, parents); }
    else { ApplyTransferExtra(st, s, t, parentName, parents); }
  }

  /** What loading the saved values of several steps does, in order. */
  function TransferAll<P>(steps: seq<Step>, s: NodeState<P>, t: NodeState<P>, parentName: Option<string>,
                          parents: map<string, P>): NodeState<P>
    requires Restorable(s, t, parentName, parents) && AllFit(steps, s.ext) && NoAsWrittenStep(steps)
    decreases |steps|
  {
    if steps == [] then t
    else
      ApplyTransfer(steps[0], s, t, parentName, parents);
      TransferAll(steps[1..], s, Transfer(steps[0], s, t, parentName, parents), parentName, parents)
  }

  /** Loading steps whose saved values the record holds never fails and does `TransferAll`. */
  lemma {:induction false} LoadStepsTransfer<P>(steps: seq<Step>, s: NodeState<P>, t: NodeState<P>,
                                                parentName: Option<string>, parents: map<string, P>, rec: seq<Member>)
    requires Restorable(s, t, parentName, parents) && AllFit(steps, s.ext) && NoAsWrittenStep(steps)
    requires Holds(rec, steps, s, parentName)
    ensures AllFit(steps, t.ext)
    ensures LoadSteps(steps, t, rec, parents) == Partial(TransferAll(steps, s, t, parentName, parents), None)
    decreases |steps|
  {
    forall i | 0 <= i < |steps| ensures Fits(steps[i], t.ext) { FitsSameKind(steps[i], s.ext, t.ext); }
    if steps != [] {
      ApplyTransfer(steps[0], s, t, parentName, parents);
      assert Get(rec, Key(steps[0])) == Some(Emit(steps[0], s, parentName));
      var rest := steps[1..];
      assert forall i :: 0 <= i < |rest| ==> rest[i] == steps[i + 1];
      LoadStepsTransfer(rest, s, Transfer(steps[0], s, t, parentName, parents), parentName, parents, rec);
    }
  }

  lemma {:induction false} TransferAllAppend<P>(a: seq<Step>, b: seq<Step>, s: NodeState<P>, t: NodeState<P>,
                                                parentName: Option<string>, parents: map<string, P>)
    requires Restorable(s, t, parentName, parents) && AllFit(a + b, s.ext) && NoAsWrittenStep(a + b)
    ensures AllFit(a, s.ext) && NoAsWrittenStep(a) && AllFit(b, s.ext) && NoAsWrittenStep(b)
    ensures Restorable(s, TransferAll(a, s, t, parentName, parents), parentName, parents)
    ensures TransferAll(a + b, s, t, parentName, parents)
              == TransferAll(b, s, TransferAll(a, s, t, parentName, parents), parentName, parents)
    decreases |a|
  {
    assert forall i :: 0 <= i < |a| ==> a[i] == (a + b)[i];
    assert forall i :: 0 <= i < |b| ==> b[i] == (a + b)[|a| + i];
    if a == [] {
      assert a + b == b;
    } else {
      ApplyTransfer(a[0], s, t, parentName, parents);
      assert (a + b)[0] == a[0] && (a + b)[1..] == a[1..] + b;
      TransferAllAppend(a[1..], b, s, Transfer(a[0], s, t, parentName, parents), parentName, parents);
    }
  }

  lemma BaseTransfer<P>(s: NodeState<P>, t: NodeState<P>, parentName: Option<string>, parents: map<string, P>)
    requires Restorable(s, t, parentName, parents)
    ensures TransferAll(BaseSchema, s, t, parentName, parents) == RestoredBase(s, t, parentName, parents)
  {
  }

  /** One step of the fold. */
  lemma TransferHead<P>(steps: seq<Step>, s: NodeState<P>, t: NodeState<P>, parentName: Option<string>, parents: map<string, P>)
    requires Restorable(s, t, parentName, parents) && AllFit(steps, s.ext) && NoAsWrittenStep(steps) && steps != []
    ensures Restorable(s, Transfer(steps[0], s, t, parentName, parents), parentName, parents)
    ensures AllFit(steps[1..], s.ext) && NoAsWrittenStep(steps[1..])
    ensures TransferAll(steps, s, t, parentName, parents)
              == TransferAll(steps[1..], s, Transfer(steps[0], s, t, parentName, parents), parentName, parents)
  {
    ApplyTransfer(steps[0], s, t, parentName, parents);
  }

  lemma PickerTransfer<P>(s: NodeState<P>, t: NodeState<P>, parentName: Option<string>, parents: map<string, P>)
    requires Restorable(s, t, parentName, parents) && s.ext.PickerExt?
    ensures AllFit(Extra(s.ext), s.ext) && NoAsWrittenStep(Extra(s.ext))
    ensures TransferAll(Extra(s.ext), s, t, parentName, parents) == t.(ext := RestoredExt(s.ext, t.ext))
  {
    var e := Extra(s.ext);
    TransferHead(e, s, t, parentName, parents);
    var t1 := Transfer(ModeCompact, s, t, parentName, parents);
    TransferHead(e[1..], s, t1, parentName, parents);
    var t2 := Transfer(ModeSelect, s, t1, parentName, parents);
    TransferHead(e[2..], s, t2, parentName, parents);
  }

  lemma LayerTransfer<P>(s: NodeState<P>, t: NodeState<P>, parentName: Option<string>, parents: map<string, P>)
    requires Restorable(s, t, parentName, parents) && s.ext.LayerExt?
    ensures AllFit(Extra(s.ext), s.ext) && NoAsWrittenStep(Extra(s.ext))
    ensures TransferAll(Extra(s.ext), s, t, parentName, parents) == t.(ext := RestoredExt(s.ext, t.ext))
  {
    var e := Extra(s.ext);
    TransferHead(e, s, t, parentName, parents);
    var t1 := Transfer(ModeCompact, s, t, parentName, parents);
    TransferHead(e[1..], s, t1, parentName, parents);
    var t2 := Transfer(LayerWithBone, s, t1, parentName, parents);
    TransferHead(e[2..], s, t2, parentName, parents);
  }

  lemma OtherTransfer<P>(s: NodeState<P>, t: NodeState<P>, parentName: Option<string>, parents: map<string, P>)
    requires Restorable(s, t, parentName, parents) && !s.ext.PickerExt? && !s.ext.LayerExt?
    ensures AllFit(Extra(s.ext), s.ext) && NoAsWrittenStep(Extra(s.ext))
    ensures TransferAll(Extra(s.ext), s, t, parentName, parents) == t.(ext := RestoredExt(s.ext, t.ext))
  {
    var e := Extra(s.ext);
    if e != [] {
      TransferHead(e, s, t, parentName, parents);
      var t1 := Transfer(e[0], s, t, parentName, parents);
      if |e| == 2 {
        TransferHead(e[1..], s, t1, parentName, parents);
      }
    }
  }

  lemma ExtraTransfer<P>(s: NodeState<P>, t: NodeState<P>, parentName: Option<string>, parents: map<string, P>)
    requires Restorable(s, t, parentName, parents)
    ensures AllFit(Extra(s.ext), s.ext) && NoAsWrittenStep(Extra(s.ext))
    ensures TransferAll(Extra(s.ext), s, t, parentName, parents) == t.(ext := RestoredExt(s.ext, t.ext))
  {
    if s.ext.PickerExt? { PickerTransfer(s, t, parentName, parents); }
    else if s.ext.LayerExt? { LayerTransfer(s, t, parentName, parents); }
    else { OtherTransfer(s, t, parentName, parents); }
  }

  /** The steps of a schema, folded, give `Restored`. */
  lemma TransferSchema<P>(s: NodeState<P>, t: NodeState<P>, parentName: Option<string>, parents: map<string, P>)
    requires Restorable(s, t, parentName, parents)
    ensures AllFit(Schema(t.ext), s.ext)
    ensures TransferAll(Schema(t.ext), s, t, parentName, parents) == Restored(s, t, parentName, parents)
  {
    SchemaSameKind(s.ext, t.ext);
    SchemaDistinct(s.ext);
    TransferAllAppend(BaseSchema, Extra(s.ext), s, t, parentName, parents);
    BaseTransfer(s, t, parentName, parents);
    var b := RestoredBase(s, t, parentName, parents);
    ExtraTransfer(s, b, parentName, parents);
  }

  /** Loading a prefix and then the rest is loading the whole, unless the prefix already failed. */
  lemma {:induction false} LoadStepsAppend<P>(a: seq<Step>, b: seq<Step>, s: NodeState<P>, rec: seq<Member>, parents: map<string, P>)
    requires AllFit(a, s.ext) && AllFit(b, s.ext)
    ensures var r := LoadSteps(a, s, rec, parents);
      && AllFit(b, r.value.ext)
      && LoadSteps(a + b, s, rec, parents) == if r.err.Some? then r else LoadSteps(b, r.value, rec, parents)
    decreases |a|
  {
    var r := LoadSteps(a, s, rec, parents);
    forall i | 0 <= i < |b| ensures Fits(b[i], r.value.ext) { FitsSameKind(b[i], s.ext, r.value.ext); }
    if a == [] {
      assert a + b == b;
    } else {
      var h := Apply(a[0], s, Get(rec, Key(a[0])), parents);
      assert (a + b)[0] == a[0] && (a + b)[1..] == a[1..] + b;
      if h.err.None? {
        forall i | 0 <= i < |a[1..]| ensures Fits(a[1..][i], h.value.ext) { FitsSameKind(a[1..][i], s.ext, h.value.ext); }
        forall i | 0 <= i < |b| ensures Fits(b[i], h.value.ext) { FitsSameKind(b[i], s.ext, h.value.ext); }
        LoadStepsAppend(a[1..], b, h.value, rec, parents);
      }
    }
  }

  /** Loading a saved record onto a node of the same type leaves exactly `Restored`. */
  lemma LoadRestores<P>(s: NodeState<P>, t: NodeState<P>, parentName: Option<string>, parents: map<string, P>)
    requires Restorable(s, t, parentName, parents)
    ensures LoadSteps(Schema(t.ext), t, Encode(s, parentName).members, parents)
              == Partial(Restored(s, t, parentName, parents), None)
  {
    SchemaSameKind(s.ext, t.ext);
    SchemaDistinct(s.ext);
    var rec := Encode(s, parentName).members;
    var steps := Schema(s.ext);
    SavedSteps(s, parentName);
    LoadStepsTransfer(steps, s, t, parentName, parents, rec);
    TransferSchema(s, t, parentName, parents);
  }

  /** A restored node saves what the original saved, step by step. */
  lemma RestoredEmits<P>(st: Step, s: NodeState<P>, t: NodeState<P>, parentName: Option<string>, parents: map<string, P>)
    requires Restorable(s, t, parentName, parents) && Fits(st, s.ext)
    ensures Fits(st, Restored(s, t, parentName, parents).ext)
    ensures Emit(st, Restored(s, t, parentName, parents), parentName) == Emit(st, s, parentName)
  {
    var r := Restored(s, t, parentName, parents);
    match st
    case PickerColumns => ReloadedEncodesSame(s.ext.columns);
    case LayerNames => assert EncodeLayerNames(r.ext.layers) == EncodeLayerNames(s.ext.layers);
    case _ =>
  }

  /** A restored node re-encodes, with the same parent name, to exactly the record it was loaded from. */
  lemma RestoredEncodes<P>(s: NodeState<P>, t: NodeState<P>, parentName: Option<string>, parents: map<string, P>)
    requires Restorable(s, t, parentName, parents)
    ensures Encode(Restored(s, t, parentName, parents), parentName) == Encode(s, parentName)
  {
    var r := Restored(s, t, parentName, parents);
    SchemaSameKind(s.ext, r.ext);
    var steps := Schema(s.ext);
    forall i | 0 <= i < |steps| ensures Emit(steps[i], r, parentName) == Emit(steps[i], s, parentName) {
      RestoredEmits(steps[i], s, t, parentName, parents);
    }
    assert Members(steps, r, parentName) == Members(steps, s, parentName);
  }

  /**
   * Save after load reproduces the record: loading what `save` produced onto
   * a node of the same type succeeds, resolves the parent through the map, and
   * the node then re-encodes, with the saved parent name, to exactly that
   * record.  A re-save writes the parent's current name instead, which is
   * the host's name for a loaded parent.
   */
  lemma RoundTrip<P>(s: NodeState<P>, t: NodeState<P>, parentName: Option<string>, parents: map<string, P>)
    requires Restorable(s, t, parentName, parents)
    ensures var r := LoadSteps(Schema(t.ext), t, Encode(s, parentName).members, parents);
      && r.err.None?
      && Encode(r.value, parentName) == Encode(s, parentName)
      && r.value.parent == RestoredParent(parentName, parents)
  {
    LoadRestores(s, t, parentName, parents);
    RestoredEncodes(s, t, parentName, parents);
  }

  // The parent link.

  /** Steps other than the parent step leave the parent as it was. */
  lemma {:induction false} LoadStepsKeepParent<P>(steps: seq<Step>, s: NodeState<P>, rec: seq<Member>, parents: map<string, P>)
    requires AllFit(steps, s.ext) && Parent !in steps && FrameParentAsWritten !in steps
    ensures LoadSteps(steps, s, rec, parents).value.parent == s.parent
    decreases |steps|
  {
    if steps != [] {
      var h := Apply(steps[0], s, Get(rec, Key(steps[0])), parents);
      assert steps[0] in steps;
      ApplyKeepsParent(steps[0], s, Get(rec, Key(steps[0])), parents);
      if h.err.None? {
        forall i | 0 <= i < |steps[1..]| ensures Fits(steps[1..][i], h.value.ext) {
          FitsSameKind(steps[1..][i], s.ext, h.value.ext);
        }
        LoadStepsKeepParent(steps[1..], h.value, rec, parents);
      }
    }
  }

  /** A step other than the parent step leaves the parent as it was. */
  lemma ApplyKeepsParent<P>(st: Step, s: NodeState<P>, v: Option<Value>, parents: map<string, P>)
    requires Fits(st, s.ext) && st != Parent && st != FrameParentAsWritten
    ensures Apply(st, s, v, parents).value.parent == s.parent
  {
    if v.Some? {
      match st
      case Label =>
      case Location =>
      case Width =>
      case Height =>
      case Hide =>
      case UseCustomColor =>
      case Color =>
      case ModeCompact =>
      case ModeSelect =>
      case PickerColumns =>
      case LayerWithBone =>
      case LayerNames =>
      case BoneName =>
      case LabelSize =>
      case Shrink =>
    }
  }

  /** Loading `front + [x] + back` is loading `front`, then the step `x`, then `back`, stopping at the first error. */
  lemma LoadStepsAround<P>(front: seq<Step>, x: Step, back: seq<Step>, t: NodeState<P>, rec: seq<Member>, parents: map<string, P>)
    requires AllFit(front, t.ext) && Fits(x, t.ext) && AllFit(back, t.ext)
    ensures AllFit(front + [x] + back, t.ext)
    ensures var r1 := LoadSteps(front, t, rec, parents);
      && Fits(x, r1.value.ext)
      && var h := Apply(x, r1.value, Get(rec, Key(x)), parents);
      && AllFit(back, h.value.ext)
      && LoadSteps(front + [x] + back, t, rec, parents)
           == if r1.err.Some? then r1 else if h.err.Some? then h else LoadSteps(back, h.value, rec, parents)
  {
    var tail := [x] + back;
    assert AllFit(tail, t.ext) by {
      forall i | 0 <= i < |tail| ensures Fits(tail[i], t.ext) {
        if i > 0 { assert tail[i] == back[i - 1]; }
      }
    }
    assert front + [x] + back == front + tail;
    LoadStepsAppend(front, tail, t, rec, parents);
    var r1 := LoadSteps(front, t, rec, parents);
    FitsSameKind(x, t.ext, r1.value.ext);
    var h := Apply(x, r1.value, Get(rec, Key(x)), parents);
    forall i | 0 <= i < |back| ensures Fits(back[i], h.value.ext) {
      FitsSameKind(back[i], t.ext, h.value.ext);
    }
    assert tail[0] == x && tail[1..] == back;
  }

  /** The parent after loading `front + [Parent] + back`, when only the middle step touches it. */
  lemma LoadedParentAround<P>(front: seq<Step>, back: seq<Step>, t: NodeState<P>, rec: seq<Member>, parents: map<string, P>)
    requires AllFit(front, t.ext) && AllFit(back, t.ext)
    requires Parent !in front && FrameParentAsWritten !in front
    requires Parent !in back && FrameParentAsWritten !in back
    ensures var r := LoadSteps(front + [Parent] + back, t, rec, parents);
      var v := Get(rec, "parent");
      && (r.err.None? ==> v.Some?)
      && (r.err.None? ==> (r.value.parent.None? <==> !Truthy(v.value)))
      && (r.err.None? && r.value.parent.Some? ==>
            v.value.Str? && v.value.s in parents && r.value.parent.value == parents[v.value.s])
      && (v.Some? && Truthy(v.value) && !(v.value.Str? && v.value.s in parents) ==> r.err.Some?)
  {
    LoadStepsAround(front, Parent, back, t, rec, parents);
    var r1 := LoadSteps(front, t, rec, parents);
    var h := Apply(Parent, r1.value, Get(rec, "parent"), parents);
    if r1.err.None? && h.err.None? {
      LoadStepsKeepParent(back, h.value, rec, parents);
    }
  }

  /**
   * The parent after a load: when the load succeeds the record had a
   * `parent`, the node has no parent iff that value is null (or otherwise
   * falsy), and a parent is the map's node for that name.  A non-null value
   * that is not a name in the map makes the load fail.
   */
  lemma LoadedParent<P>(t: NodeState<P>, rec: seq<Member>, parents: map<string, P>)
    ensures var r := LoadSteps(Schema(t.ext), t, rec, parents);
      var v := Get(rec, "parent");
      && (r.err.None? ==> v.Some?)
      && (r.err.None? ==> (r.value.parent.None? <==> !Truthy(v.value)))
      && (r.err.None? && r.value.parent.Some? ==>
            v.value.Str? && v.value.s in parents && r.value.parent.value == parents[v.value.s])
      && (v.Some? && Truthy(v.value) && !(v.value.Str? && v.value.s in parents) ==> r.err.Some?)
  {
    var front := [Label, Location, Width, Height, Hide];
    var back := [UseCustomColor, Color] + Extra(t.ext);
    assert Schema(t.ext) == front + [Parent] + back;
    LoadedParentAround(front, back, t, rec, parents);
  }

  // The frame branch of the graph loader.

  /** As written, a frame whose record has a non-null parent never loads. */
  lemma FrameAsWrittenFailsWithParent<P>(t: NodeState<P>, rec: seq<Member>, parents: map<string, P>)
    requires t.ext.FrameExt? && Get(rec, "parent").Some? && Truthy(Get(rec, "parent").value)
    ensures LoadSteps(FrameSchemaAsWritten, t, rec, parents).err.Some?
  {
    var front := [Label, Location, Width, Height, Hide];
    var back := [UseCustomColor, Color, LabelSize, Shrink];
    assert FrameSchemaAsWritten == front + [FrameParentAsWritten] + back;
    LoadStepsAround(front, FrameParentAsWritten, back, t, rec, parents);
  }

  /** The frame branch as written agrees with a frame's schema up to the parent line, where it differs. */
  lemma FrameSchemaSplit(ext: Extension)
    requires ext.FrameExt?
    ensures |Schema(ext)| == |FrameSchemaAsWritten| > 5
    ensures Schema(ext)[..5] == FrameSchemaAsWritten[..5] && FrameSchemaAsWritten[5] == FrameParentAsWritten
    ensures AllFit(FrameSchemaAsWritten, ext)
  {
  }

  /** A load that succeeds has loaded every prefix of its steps. */
  lemma PrefixLoads<P>(steps: seq<Step>, n: nat, t: NodeState<P>, rec: seq<Member>, parents: map<string, P>)
    requires AllFit(steps, t.ext) && n <= |steps| && LoadSteps(steps, t, rec, parents).err.None?
    ensures AllFit(steps[..n], t.ext) && LoadSteps(steps[..n], t, rec, parents).err.None?
  {
    assert steps == steps[..n] + steps[n..];
    assert AllFit(steps[n..], t.ext) by {
      forall i | 0 <= i < |steps[n..]| ensures Fits(steps[n..][i], t.ext) { assert steps[n..][i] == steps[n + i]; }
    }
    LoadStepsAppend(steps[..n], steps[n..], t, rec, parents);
  }

  /** Reached with a parent named in the record, the frame branch's parent line as written raises NameError. */
  lemma AsWrittenParentFails<P>(steps: seq<Step>, n: nat, t: NodeState<P>, rec: seq<Member>, parents: map<string, P>)
    requires AllFit(steps, t.ext) && n < |steps| && steps[n] == FrameParentAsWritten
    requires AllFit(steps[..n], t.ext) && LoadSteps(steps[..n], t, rec, parents).err.None?
    requires Get(rec, "parent").Some? && Truthy(Get(rec, "parent").value)
    ensures LoadSteps(steps, t, rec, parents).err == Some(UndefinedName("nodes"))
  {
    var tail := steps[n..];
    assert steps == steps[..n] + tail;
    assert AllFit(tail, t.ext) by {
      forall i | 0 <= i < |tail| ensures Fits(tail[i], t.ext) { assert tail[i] == steps[n + i]; }
    }
    LoadStepsAppend(steps[..n], tail, t, rec, parents);
    var r := LoadSteps(steps[..n], t, rec, parents);
    assert tail[0] == FrameParentAsWritten;
    FitsSameKind(FrameParentAsWritten, t.ext, r.value.ext);
  }

  /**
   * As written, a frame whose corrected load succeeds and whose record names
   * a parent fails exactly on the parent line, with the frame branch's NameError.
   */
  lemma FrameAsWrittenStopsAtParent<P>(t: NodeState<P>, rec: seq<Member>, parents: map<string, P>)
    requires t.ext.FrameExt? && Get(rec, "parent").Some? && Truthy(Get(rec, "parent").value)
    requires LoadSteps(Schema(t.ext), t, rec, parents).err.None?
    ensures LoadSteps(FrameSchemaAsWritten, t, rec, parents).err == Some(UndefinedName("nodes"))
  {
    FrameSchemaSplit(t.ext);
    PrefixLoads(Schema(t.ext), 5, t, rec, parents);
    AsWrittenParentFails(FrameSchemaAsWritten, 5, t, rec, parents);
  }

  /** As written, a frame whose record has a null (or no) parent loads as the corrected frame load does. */
  lemma FrameAsWrittenWithoutParent<P>(t: NodeState<P>, rec: seq<Member>, parents: map<string, P>)
    requires t.ext.FrameExt? && (Get(rec, "parent").None? || !Truthy(Get(rec, "parent").value))
    ensures LoadSteps(FrameSchemaAsWritten, t, rec, parents) == LoadSteps(Schema(t.ext), t, rec, parents)
  {
    var front := [Label, Location, Width, Height, Hide];
    var back := [UseCustomColor, Color, LabelSize, Shrink];
    assert FrameSchemaAsWritten == front + [FrameParentAsWritten] + back;
    assert Schema(t.ext) == front + [Parent] + back;
    LoadStepsAround(front, FrameParentAsWritten, back, t, rec, parents);
    LoadStepsAround(front, Parent, back, t, rec, parents);
    var r1 := LoadSteps(front, t, rec, parents);
    assert Apply(FrameParentAsWritten, r1.value, Get(rec, "parent"), parents)
        == Apply(Parent, r1.value, Get(rec, "parent"), parents);
  }
  /**
   * The frame finding: a frame saved with a parent does not load back as
   * written, while the corrected frame load restores it.
   */
  lemma FrameWithParentRoundTrip<P>(s: NodeState<P>, t: NodeState<P>, parentName: string, parents: map<string, P>)
    requires s.ext.FrameExt? && Restorable(s, t, Some(parentName), parents)
    ensures LoadSteps(FrameSchemaAsWritten, t, Encode(s, Some(parentName)).members, parents).err.Some?
    ensures var r := LoadSteps(Schema(t.ext), t, Encode(s, Some(parentName)).members, parents);
      r.err.None? && r.value.parent == Some(parents[parentName])
  {
    SavedFields(s, Some(parentName));
    FrameAsWrittenFailsWithParent(t, Encode(s, Some(parentName)).members, parents);
    RoundTrip(s, t, Some(parentName), parents);
  }
}
