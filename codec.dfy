/**
 * The document codec: how a node's live state becomes a flat record and how a
 * record is applied back onto a node.  A node type's schema is the list of its
 * saved fields in key order: the shared base fields first, then the type's own.
 * Saving emits one member per schema step after `type`; loading applies the
 * steps in the same order and stops at the first failing one, keeping what the
 * earlier steps assigned (the Python code raises at that point).
 *
 * The codec is generic in `P`, the type of the node a parent link refers to.
 */
module Codec {
  import opened Wrappers
  import opened Json
  import opened Scene
  import opened Grid
  import opened Layers

  /** The registered node types (`bl_idname`). */
  const PickerType: string := "NodeNPickBonePicker"
  const LayerType: string := "NodeNPickObjectLayer"
  const BonePropsType: string := "NodeNPickBoneCustomPropertiesBone"
  const ObjectPropsType: string := "NodeNPickObjectCustomProperties"
  /** Host node types the graph can hold: frames, and reroutes (which have no save). */
  const FrameType: string := "NodeFrame"
  const RerouteType: string := "NodeReroute"

  /** A node location is a 2D vector, a node colour an RGB triple. */
  const LocationSize: nat := 2
  const ColorSize: nat := 3

  /** The type-specific part of a node. */
  datatype Extension =
    | PickerExt(modeCompact: bool, modeSelect: SelectMode, armature: Armature?, columns: seq<Column>)
    | LayerExt(modeCompact: bool, armature: Armature?, layerWithBone: bool, layers: seq<BoneLayer>)
    | BonePropsExt(modeCompact: bool, armature: Armature?, boneName: string)
    | ObjectPropsExt(modeCompact: bool, armature: Armature?)
    | FrameExt(labelSize: int, shrink: bool)
    | RerouteExt

  function TypeIdOf(ext: Extension): string
  {
    match ext
    case PickerExt(_, _, _, _) => PickerType
    case LayerExt(_, _, _, _) => LayerType
    case BonePropsExt(_, _, _) => BonePropsType
    case ObjectPropsExt(_, _) => ObjectPropsType
    case FrameExt(_, _) => FrameType
    case RerouteExt => RerouteType
  }

  /** The node types that define `save` and `load` (and have `mode_compact`). */
  predicate HasSave(ext: Extension)
  {
    ext.PickerExt? || ext.LayerExt? || ext.BonePropsExt? || ext.ObjectPropsExt?
  }

  predicate SameKind(a: Extension, b: Extension)
  {
    && a.PickerExt? == b.PickerExt? && a.LayerExt? == b.LayerExt?
    && a.BonePropsExt? == b.BonePropsExt? && a.ObjectPropsExt? == b.ObjectPropsExt?
    && a.FrameExt? == b.FrameExt? && a.RerouteExt? == b.RerouteExt?
  }

  /**
   * The type-specific state of a node just created by `nodes.new(typeId)`,
   * before `init`; None when the host knows no such type.
   */
  function BlankExt(typeId: string): (r: Option<Extension>)
    ensures r.Some? ==> TypeIdOf(r.value) == typeId
    ensures r.None? <==> typeId !in {PickerType, LayerType, BonePropsType, ObjectPropsType, FrameType, RerouteType}
  {
    if typeId == PickerType then Some(PickerExt(false, Single, null, []))
    else if typeId == LayerType then Some(LayerExt(false, null, false, []))
    else if typeId == BonePropsType then Some(BonePropsExt(false, null, ""))
    else if typeId == ObjectPropsType then Some(ObjectPropsExt(false, null))
    else if typeId == FrameType then Some(FrameExt(20, true))
    else if typeId == RerouteType then Some(RerouteExt)
    else None
  }

  /** What `init` adds: the bone-layer node gets its 32 layers. */
  function InitExt(ext: Extension): (r: Extension)
    ensures SameKind(r, ext)
  {
    if ext.LayerExt? then ext.(layers := DefaultLayers()) else ext
  }

  /** A node's live state; `parent` refers to another node of the graph. */
  datatype NodeState<P> = NodeState(
    labelText: string, location: seq<real>, width: real, height: real, hidden: bool,
    parent: Option<P>, useCustomColor: bool, color: seq<real>, ext: Extension)

  /** The nPick node types declare a default width of 250; other types take the host's. */
  function DefaultWidth(ext: Extension): real
  {
    if HasSave(ext) then 250.0 else 140.0
  }

  /** A freshly created (and initialised) node; the base values are the host's defaults. */
  function BlankState<P>(ext: Extension): (s: NodeState<P>)
    ensures s.parent.None? && s.labelText == "" && SameKind(s.ext, ext)
    ensures |s.location| == LocationSize && |s.color| == ColorSize
    ensures Sized(s)
  {
    NodeState("", [0.0, 0.0], DefaultWidth(ext), 100.0, false, None, false, [0.608, 0.608, 0.608], InitExt(ext))
  }

  /** The sizes the host fixes: a location of two numbers, a colour of three, one table entry per armature layer. */
  predicate Sized<P>(s: NodeState<P>)
  {
    |s.location| == LocationSize && |s.color| == ColorSize && (s.ext.LayerExt? ==> |s.ext.layers| == LayerCount)
  }

  /** Why loading stopped, named after the Python exception it models. */
  datatype LoadError =
    | MissingKey(key: string)           // KeyError on the record
    | WrongType(key: string)            // TypeError/ValueError: the host refused the value
    | UnresolvedParent(parent: Value)   // KeyError in the name map
    | UndefinedName(name: string)       // NameError
    | LayerIndex(index: nat)            // IndexError: more saved layer names than layers
    | UnknownType(typeId: string)       // the host cannot create a node of this type
    | NoLoadMethod(typeId: string)      // AttributeError: the node type has no `load`

  /** A value built up to the point where an error (if any) stopped it. */
  datatype Partial<T> = Partial(value: T, err: Option<LoadError>)

  /** The result of `item[key]`. */
  datatype Fetched = Found(v: Value) | Failed(e: LoadError)

  /** `item[key]` on a loaded JSON value: only objects can be subscripted by a key. */
  function Field(item: Value, key: string): (r: Fetched)
    ensures r.Found? <==> item.Object? && Get(item.members, key).Some?
    ensures r.Found? ==> r.v == Get(item.members, key).value
  {
    if !item.Object? then Failed(WrongType(key))
    else match Get(item.members, key)
      case None => Failed(MissingKey(key))
      case Some(v) => Found(v)
  }

  // Conversions the host's typed properties accept.

  function AsString(v: Value): Option<string>
  {
    if v.Str? then Some(v.s) else None
  }

  function AsBool(v: Value): Option<bool>
  {
    if v.Bool? then Some(v.b) else None
  }

  /** A float property accepts integers too. */
  function AsReal(v: Value): Option<real>
  {
    if v.Float? then Some(v.r) else if v.Int? then Some(v.i as real) else None
  }

  function AsInt(v: Value): Option<int>
  {
    if v.Int? then Some(v.i) else None
  }

  /** A vector property takes a list of exactly `n` numbers. */
  function AsReals(v: Value, n: nat): (r: Option<seq<real>>)
    ensures r.Some? ==> |r.value| == n
  {
    if v.List? && |v.items| == n && forall i :: 0 <= i < n ==> AsReal(v.items[i]).Some?
    then Some(seq(n, i requires 0 <= i < n && AsReal(v.items[i]).Some? => AsReal(v.items[i]).value))
    else None
  }

  /** The enum item name; reading it back gives the same mode. */
  function SelectModeName(m: SelectMode): (r: string)
    ensures AsSelectMode(Str(r)) == Some(m)
  {
    match m
    case Single => "SINGLE"
    case Multi => "MULTI"
  }

  /** An enum property accepts exactly the names of its items. */
  function AsSelectMode(v: Value): (r: Option<SelectMode>)
    ensures r.Some? <==> v in {Str("SINGLE"), Str("MULTI")}
  {
    if v == Str("SINGLE") then Some(Single)
    else if v == Str("MULTI") then Some(Multi)
    else None
  }

  // The schema.

  /** One saved field. */
  datatype Step =
    | Label | Location | Width | Height | Hide | Parent | UseCustomColor | Color
    | FrameParentAsWritten
    | ModeCompact | ModeSelect | PickerColumns | LayerWithBone | LayerNames | BoneName
    | LabelSize | Shrink

  /** The record key of a step. */
  function Key(st: Step): string
  {
    match st
    case Label => "label"
    case Location => "location"
    case Width => "width"
    case Height => "height"
    case Hide => "hide"
    case Parent => "parent"
    case UseCustomColor => "use_custom_color"
    case Color => "color"
    case FrameParentAsWritten => "parent"
    case ModeCompact => "mode_compact"
    case ModeSelect => "mode_select"
    case PickerColumns => "picker_columns"
    case LayerWithBone => "layer_with_bone"
    case LayerNames => "collection_bone_layers"
    case BoneName => "bone_name"
    case LabelSize => "label_size"
    case Shrink => "shrink"
  }

  /** Whether a node of this type has the field the step reads or writes. */
  predicate Fits(st: Step, ext: Extension)
  {
    match st
    case FrameParentAsWritten => ext.FrameExt?
    case ModeCompact => HasSave(ext)
    case ModeSelect => ext.PickerExt?
    case PickerColumns => ext.PickerExt?
    case LayerWithBone => ext.LayerExt?
    case LayerNames => ext.LayerExt?
    case BoneName => ext.BonePropsExt?
    case LabelSize => ext.FrameExt?
    case Shrink => ext.FrameExt?
    case _ => true
  }

  predicate AllFit(steps: seq<Step>, ext: Extension)
  {
    forall i :: 0 <= i < |steps| ==> Fits(steps[i], ext)
  }

  lemma FitsSameKind(st: Step, a: Extension, b: Extension)
    requires SameKind(a, b) && Fits(st, a)
    ensures Fits(st, b)
  {
  }

  /** The base fields every node saves after `type`, in key order. */
  const BaseSchema: seq<Step> := [Label, Location, Width, Height, Hide, Parent, UseCustomColor, Color]

  /** The fields a node type appends after the base fields. */
  function Extra(ext: Extension): seq<Step>
  {
    match ext
    case PickerExt(_, _, _, _) => [ModeCompact, ModeSelect, PickerColumns]
    case LayerExt(_, _, _, _) => [ModeCompact, LayerWithBone, LayerNames]
    case BonePropsExt(_, _, _) => [ModeCompact, BoneName]
    case ObjectPropsExt(_, _) => [ModeCompact]
    case FrameExt(_, _) => [LabelSize, Shrink]
    case RerouteExt => []
  }

  function Schema(ext: Extension): (r: seq<Step>)
    ensures AllFit(r, ext)
  {
    BaseSchema + Extra(ext)
  }

  /** The frame branch of the graph loader as written: its parent step names an undefined variable. */
  const FrameSchemaAsWritten: seq<Step> :=
    [Label, Location, Width, Height, Hide, FrameParentAsWritten, UseCustomColor, Color, LabelSize, Shrink]

  // Saving.

  function Reals(rs: seq<real>): (v: Value)
    ensures v.List? && |v.items| == |rs|
    ensures forall i :: 0 <= i < |rs| ==> v.items[i] == Float(rs[i])
  {
    List(seq(|rs|, i requires 0 <= i < |rs| => Float(rs[i])))
  }

  /** A saved row: its bone binding and label flag, nothing else. */
  function EncodeRow(r: Row): Value
  {
    Object([Member("bone_name", Str(r.boneName)), Member("show_bone_name", Bool(r.showBoneName))])
  }

  function EncodeRows(rows: seq<Row>): (r: seq<Value>)
    ensures |r| == |rows|
    ensures forall j :: 0 <= j < |rows| ==> r[j] == EncodeRow(rows[j])
  {
    seq(|rows|, j requires 0 <= j < |rows| => EncodeRow(rows[j]))
  }

  function EncodeColumn(c: Column): Value
  {
    Object([Member("size", Float(c.size)), Member("rows", List(EncodeRows(c.rows)))])
  }

  function EncodeColumns(cols: seq<Column>): (r: seq<Value>)
    ensures |r| == |cols|
    ensures forall i :: 0 <= i < |cols| ==> r[i] == EncodeColumn(cols[i])
  {
    seq(|cols|, i requires 0 <= i < |cols| => EncodeColumn(cols[i]))
  }

  function EncodeLayerNames(layers: seq<BoneLayer>): (r: seq<Value>)
    ensures |r| == |layers|
    ensures forall i :: 0 <= i < |layers| ==> r[i] == Str(layers[i].name)
  {
    seq(|layers|, i requires 0 <= i < |layers| => Str(layers[i].name))
  }

  /** The value a step saves; the parent is saved by name (`parentName`), or as null. */
  function Emit<P>(st: Step, s: NodeState<P>, parentName: Option<string>): Value
    requires Fits(st, s.ext)
  {
    match st
    case Label => Str(s.labelText)
    case Location => Reals(s.location)
    case Width => Float(s.width)
    case Height => Float(s.height)
    case Hide => Bool(s.hidden)
    case Parent => if parentName.Some? then Str(parentName.value) else Null
    case UseCustomColor => Bool(s.useCustomColor)
    case Color => Reals(s.color)
    case FrameParentAsWritten => if parentName.Some? then Str(parentName.value) else Null
    case ModeCompact => Bool(s.ext.modeCompact)
    case ModeSelect => Str(SelectModeName(s.ext.modeSelect))
    case PickerColumns => List(EncodeColumns(s.ext.columns))
    case LayerWithBone => Bool(s.ext.layerWithBone)
    case LayerNames => List(EncodeLayerNames(s.ext.layers))
    case BoneName => Str(s.ext.boneName)
    case LabelSize => Int(s.ext.labelSize)
    case Shrink => Bool(s.ext.shrink)
  }

  function Members<P>(steps: seq<Step>, s: NodeState<P>, parentName: Option<string>): (ms: seq<Member>)
    requires AllFit(steps, s.ext)
    ensures |ms| == |steps|
    ensures forall i :: 0 <= i < |steps| ==> ms[i] == Member(Key(steps[i]), Emit(steps[i], s, parentName))
  {
    seq(|steps|, i requires 0 <= i < |steps| => Member(Key(steps[i]), Emit(steps[i], s, parentName)))
  }

  /** `save()`: the type, then one member per schema step. */
  function Encode<P>(s: NodeState<P>, parentName: Option<string>): (v: Value)
    ensures v.Object? && |v.members| == 1 + |Schema(s.ext)|
    ensures v.members[0] == Member("type", Str(TypeIdOf(s.ext)))
    ensures forall i :: 0 <= i < |Schema(s.ext)| ==>
              v.members[i + 1] == Member(Key(Schema(s.ext)[i]), Emit(Schema(s.ext)[i], s, parentName))
  {
    Object([Member("type", Str(TypeIdOf(s.ext)))] + Members(Schema(s.ext), s, parentName))
  }

  // Loading.

  /** `nodes[v]['node']`: only a string that names an entry already in the map resolves. */
  function ResolveParent<P>(v: Value, parents: map<string, P>): (r: Fetched2<P>)
    ensures r.Resolved? <==> v.Str? && v.s in parents
    ensures r.Resolved? ==> r.p == parents[v.s]
  {
    if v.Str? && v.s in parents then Resolved(parents[v.s])
    else if v.List? || v.Object? then Unresolvable(WrongType("parent"))
    else Unresolvable(UnresolvedParent(v))
  }

  datatype Fetched2<P> = Resolved(p: P) | Unresolvable(e: LoadError)

  /**
   * One step of `load`.  A missing key raises before anything is assigned,
   * except that the picker clears its columns before it reads `picker_columns`.
   */
  function Apply<P>(st: Step, s: NodeState<P>, v: Option<Value>, parents: map<string, P>): (r: Partial<NodeState<P>>)
    requires Fits(st, s.ext)
    ensures SameKind(r.value.ext, s.ext)
  {
    match v
    case None =>
      if st == PickerColumns then Partial(s.(ext := s.ext.(columns := [])), Some(MissingKey(Key(st))))
      else Partial(s, Some(MissingKey(Key(st))))
    case Some(v) => ApplyValue(st, s, v, parents)
  }

  function Refuse<P>(st: Step, s: NodeState<P>): Partial<NodeState<P>>
  {
    Partial(s, Some(WrongType(Key(st))))
  }

  /** One step of `load` once the key was found: convert and assign. */
  function ApplyValue<P>(st: Step, s: NodeState<P>, v: Value, parents: map<string, P>): (r: Partial<NodeState<P>>)
    requires Fits(st, s.ext)
    ensures SameKind(r.value.ext, s.ext)
  {
    match st
    case Label =>
      if AsString(v).Some? then Partial(s.(labelText := AsString(v).value), None) else Refuse(st, s)
    case Location =>
      if AsReals(v, LocationSize).Some? then Partial(s.(location := AsReals(v, LocationSize).value), None) else Refuse(st, s)
    case Width =>
      if AsReal(v).Some? then Partial(s.(width := AsReal(v).value), None) else Refuse(st, s)
    case Height =>
      if AsReal(v).Some? then Partial(s.(height := AsReal(v).value), None) else Refuse(st, s)
    case Hide =>
      if AsBool(v).Some? then Partial(s.(hidden := AsBool(v).value), None) else Refuse(st, s)
    case Parent =>
      if !Truthy(v) then Partial(s.(parent := None), None)
      else (match ResolveParent(v, parents)
        case Resolved(p) => Partial(s.(parent := Some(p)), None)
        case Unresolvable(e) => Partial(s, Some(e)))
    case UseCustomColor =>
      if AsBool(v).Some? then Partial(s.(useCustomColor := AsBool(v).value), None) else Refuse(st, s)
    case Color =>
      if AsReals(v, ColorSize).Some? then Partial(s.(color := AsReals(v, ColorSize).value), None) else Refuse(st, s)
    case FrameParentAsWritten =>
      if !Truthy(v) then Partial(s.(parent := None), None) else Partial(s, Some(UndefinedName("nodes")))
    case ModeCompact =>
      if AsBool(v).Some? then Partial(s.(ext := s.ext.(modeCompact := AsBool(v).value)), None) else Refuse(st, s)
    case ModeSelect =>
      // assigning `mode_select` runs its update callback, which pushes it to the existing rows
      if AsSelectMode(v).Some? then
        var m := AsSelectMode(v).value;
        Partial(s.(ext := s.ext.(modeSelect := m, columns := WithModeSelect(s.ext.columns, m))), None)
      else Refuse(st, s)
    case PickerColumns =>
      var cleared := s.(ext := s.ext.(columns := []));
      if Iterate(v).None? then Refuse(st, cleared)
      else
        var cols := LoadColumns(Iterate(v).value, []);
        Partial(cleared.(ext := cleared.ext.(columns := cols.value)), cols.err)
    case LayerWithBone =>
      if AsBool(v).Some? then Partial(s.(ext := s.ext.(layerWithBone := AsBool(v).value)), None) else Refuse(st, s)
    case LayerNames =>
      if Iterate(v).None? then Refuse(st, s)
      else
        var renamed := RenameLayers(s.ext.layers, Iterate(v).value, 0);
        Partial(s.(ext := s.ext.(layers := renamed.value)), renamed.err)
    case BoneName =>
      if AsString(v).Some? then Partial(s.(ext := s.ext.(boneName := AsString(v).value)), None) else Refuse(st, s)
    case LabelSize =>
      if AsInt(v).Some? then Partial(s.(ext := s.ext.(labelSize := AsInt(v).value)), None) else Refuse(st, s)
    case Shrink =>
      if AsBool(v).Some? then Partial(s.(ext := s.ext.(shrink := AsBool(v).value)), None) else Refuse(st, s)
  }

  /** `load`: apply the steps in order, stopping at the first error. */
  function LoadSteps<P>(steps: seq<Step>, s: NodeState<P>, rec: seq<Member>, parents: map<string, P>)
    : (r: Partial<NodeState<P>>)
    requires AllFit(steps, s.ext)
    ensures SameKind(r.value.ext, s.ext)
    decreases |steps|
  {
    if steps == [] then Partial(s, None)
    else
      var r := Apply(steps[0], s, Get(rec, Key(steps[0])), parents);
      if r.err.Some? then r
      else
        assert AllFit(steps[1..], r.value.ext) by {
          forall i | 0 <= i < |steps[1..]| ensures Fits(steps[1..][i], r.value.ext) {
            FitsSameKind(steps[1..][i], s.ext, r.value.ext);
          }
        }
        LoadSteps(steps[1..], r.value, rec, parents)
  }

  /**
   * One saved row onto a freshly added row: `bone_name`, then `show_bone_name`.
   * The row's other fields keep the defaults of `rows.add()`.
   */
  function LoadRow(item: Value): Partial<Row>
  {
    match Field(item, "bone_name")
    case Failed(e) => Partial(DefaultRow, Some(e))
    case Found(nv) =>
      if AsString(nv).None? then Partial(DefaultRow, Some(WrongType("bone_name")))
      else
        var row := DefaultRow.(boneName := AsString(nv).value);
        match Field(item, "show_bone_name")
        case Failed(e) => Partial(row, Some(e))
        case Found(bv) =>
          if AsBool(bv).None? then Partial(row, Some(WrongType("show_bone_name")))
          else Partial(row.(showBoneName := AsBool(bv).value), None)
  }

  /**
   * `for item in items: new = collection.add(); <load item into new>`: one
   * entry added per saved item after the entries already there, stopping at
   * the first item that fails (its partly loaded entry stays).
   */
  function LoadEach<T>(load: Value -> Partial<T>, items: seq<Value>, acc: seq<T>): Partial<seq<T>>
    decreases |items|
  {
    if items == [] then Partial(acc, None)
    else
      var e := load(items[0]);
      if e.err.Some? then Partial(acc + [e.value], e.err)
      else LoadEach(load, items[1..], acc + [e.value])
  }

  /** The inner loop of the picker load: the rows of one column. */
  function LoadRows(items: seq<Value>, rows: seq<Row>): Partial<seq<Row>>
  {
    LoadEach(LoadRow, items, rows)
  }

  /** One saved column onto a freshly added column: `size`, then its rows. */
  function LoadColumn(item: Value): Partial<Column>
  {
    match Field(item, "size")
    case Failed(e) => Partial(DefaultColumn, Some(e))
    case Found(sv) =>
      if AsReal(sv).None? then Partial(DefaultColumn, Some(WrongType("size")))
      else
        var col := DefaultColumn.(size := AsReal(sv).value);
        match Field(item, "rows")
        case Failed(e) => Partial(col, Some(e))
        case Found(rv) =>
          if Iterate(rv).None? then Partial(col, Some(WrongType("rows")))
          else
            var rows := LoadRows(Iterate(rv).value, []);
            Partial(col.(rows := rows.value), rows.err)
  }

  /** The outer loop of the picker load: the columns. */
  function LoadColumns(items: seq<Value>, cols: seq<Column>): Partial<seq<Column>>
  {
    LoadEach(LoadColumn, items, cols)
  }

  /**
   * The layer-name loop from position `k` on: saved name k goes to layer k;
   * a name beyond the collection is an IndexError.
   */
  function RenameLayers(layers: seq<BoneLayer>, items: seq<Value>, k: nat): (r: Partial<seq<BoneLayer>>)
    requires k <= |items|
    ensures |r.value| == |layers|
    decreases |items| - k
  {
    if k == |items| then Partial(layers, None)
    else if k >= |layers| then Partial(layers, Some(LayerIndex(k)))
    else if AsString(items[k]).None? then Partial(layers, Some(WrongType("collection_bone_layers")))
    else RenameLayers(layers[k := layers[k].(name := AsString(items[k]).value)], items, k + 1)
  }
}
