/**
 * A node of the picker graph as the host holds it: an object whose fields the
 * load, the property callbacks and the grid operators assign in place.  Its
 * saved and loaded fields are exactly a `Codec.NodeState`; `State()` reads
 * them off, and every method is proved against the codec's functions on it.
 */
module Nodes {
  import opened Wrappers
  import opened Json
  import opened Scene
  import opened Grid
  import opened Layers
  import opened Codec
  import opened CodecProperties

  class Node {
    /** The node's unique name in its tree (assigned by the host). */
    var name: string
    var select: bool
    var labelText: string
    var location: seq<real>
    var width: real
    var height: real
    var hidden: bool
    var parent: Node?
    var useCustomColor: bool
    var color: seq<real>
    var ext: Extension

    /** The codec's view of the node. */
    function State(): NodeState<Node>
      reads this
    {
      NodeState(labelText, location, width, height, hidden, (if parent == null then None else Some(parent as Node)),
                useCustomColor, color, ext)
    }

    /**
     * The host's fixed sizes hold: a two-number location, a three-number
     * colour, and on a bone-layer node one table entry per armature layer.
     */
    predicate Valid()
      reads this
    {
      Sized(State())
    }

    /** `nodes.new(typeId)`, which runs the type's `init`. */
    constructor (name: string, typeId: string)
      requires BlankExt(typeId).Some?
      ensures this.name == name
      ensures State() == BlankState(BlankExt(typeId).value)
      ensures Valid()
    {
      this.name := name;
      select := false;
      labelText := "";
      location := [0.0, 0.0];
      width := DefaultWidth(BlankExt(typeId).value);
      height := 100.0;
      hidden := false;
      parent := null;
      useCustomColor := false;
      color := [0.608, 0.608, 0.608];
      ext := BlankExt(typeId).value;
      new;
      Init();
    }

    /** `init`: the bone-layer node adds its 32 layers, `Layer 1` to `Layer 32`. */
    method Init()
      modifies this
      ensures name == old(name) && select == old(select)
      ensures State() == old(State()).(ext := (if old(ext).LayerExt? then old(ext).(layers := old(ext).layers + DefaultLayers()) else old(ext)))
    {
      if ext.LayerExt? {
        var added: seq<BoneLayer> := [];
        for index := 0 to LayerCount
          invariant added == DefaultLayers()[..index]
        {
          added := added + [BoneLayer(LayerName(index), true)];
        }
        assert added == DefaultLayers();
        ext := ext.(layers := ext.layers + added);
      }
    }

    /** `save()` (and the graph's inline save of a frame): the parent by name. */
    function Save(): Value
      reads this, parent
    {
      Encode(State(), ParentName())
    }

    /** The name the record gives the parent: none, or the parent node's name. */
    function ParentName(): (r: Option<string>)
      reads this, parent
      ensures r.None? <==> parent == null
      ensures r.Some? ==> r.value == parent.name
    {
      if parent == null then None else Some(parent.name)
    }

    /**
     * One assignment `self.<field> = save_dict['<key>']` of the base `load`
     * (and of the graph's frame branch), other than the parent's.
     */
    method LoadBaseField(st: Step, rec: seq<Member>, parents: map<string, Node>) returns (err: Option<LoadError>)
      requires st in {Label, Location, Width, Height, Hide, UseCustomColor, Color}
      requires Valid()
      modifies this
      ensures name == old(name) && select == old(select) && ext == old(ext)
      ensures Partial(State(), err) == Apply(st, old(State()), Get(rec, Key(st)), parents)
      ensures Valid()
    {
      var found := Get(rec, Key(st));
      if found.None? {
        return Some(MissingKey(Key(st)));
      }
      var v := found.value;
      err := None;
      match st
      case Label =>
        if v.Str? { labelText := v.s; } else { err := Some(WrongType(Key(st))); }
      case Location =>
        if AsReals(v, LocationSize).Some? { location := AsReals(v, LocationSize).value; } else { err := Some(WrongType(Key(st))); }
      case Width =>
        if AsReal(v).Some? { width := AsReal(v).value; } else { err := Some(WrongType(Key(st))); }
      case Height =>
        if AsReal(v).Some? { height := AsReal(v).value; } else { err := Some(WrongType(Key(st))); }
      case Hide =>
        if v.Bool? { hidden := v.b; } else { err := Some(WrongType(Key(st))); }
      case UseCustomColor =>
        if v.Bool? { useCustomColor := v.b; } else { err := Some(WrongType(Key(st))); }
      case Color =>
        if AsReals(v, ColorSize).Some? { color := AsReals(v, ColorSize).value; } else { err := Some(WrongType(Key(st))); }
    }

    /**
     * `self.parent = nodes[save_dict['parent']]['node'] if save_dict['parent'] else None`;
     * in the frame branch the map is referred to by the undefined name `nodes`.
     */
    method LoadParent(st: Step, rec: seq<Member>, parents: map<string, Node>) returns (err: Option<LoadError>)
      requires st == Parent || (st == FrameParentAsWritten && ext.FrameExt?)
      requires Valid()
      modifies this
      ensures name == old(name) && select == old(select) && ext == old(ext)
      ensures Partial(State(), err) == Apply(st, old(State()), Get(rec, Key(st)), parents)
      ensures Valid()
    {
      var found := Get(rec, "parent");
      if found.None? {
        return Some(MissingKey("parent"));
      }
      var v := found.value;
      err := None;
      if !Truthy(v) {
        parent := null;
      } else if st == FrameParentAsWritten {
        err := Some(UndefinedName("nodes"));
      } else {
        match ResolveParent(v, parents)
        case Resolved(p) => parent := p;
        case Unresolvable(e) => err := Some(e);
      }
    }

    /** One assignment of a type's own `load` whose value is a plain conversion of the saved one. */
    method LoadOwnField(st: Step, rec: seq<Member>, parents: map<string, Node>) returns (err: Option<LoadError>)
      requires st in {ModeCompact, LayerWithBone, BoneName, LabelSize, Shrink}
      requires Fits(st, ext)
      requires Valid()
      modifies this
      ensures name == old(name) && select == old(select)
      ensures Partial(State(), err) == Apply(st, old(State()), Get(rec, Key(st)), parents)
      ensures Valid()
    {
      var found := Get(rec, Key(st));
      if found.None? {
        return Some(MissingKey(Key(st)));
      }
      var v := found.value;
      err := None;
      match st
      case ModeCompact =>
        if v.Bool? { ext := ext.(modeCompact := v.b); } else { err := Some(WrongType(Key(st))); }
      case LayerWithBone =>
        if v.Bool? { ext := ext.(layerWithBone := v.b); } else { err := Some(WrongType(Key(st))); }
      case BoneName =>
        if v.Str? { ext := ext.(boneName := v.s); } else { err := Some(WrongType(Key(st))); }
      case LabelSize =>
        if v.Int? { ext := ext.(labelSize := v.i); } else { err := Some(WrongType(Key(st))); }
      case Shrink =>
        if v.Bool? { ext := ext.(shrink := v.b); } else { err := Some(WrongType(Key(st))); }
    }
  
    /**
     * `mode_select = save_dict['mode_select']`; the assignment runs the
     * property's update callback, which pushes the mode down to the rows.
     */
    method LoadModeSelect(rec: seq<Member>, parents: map<string, Node>) returns (err: Option<LoadError>)
      requires ext.PickerExt?
      requires Valid()
      modifies this
      ensures name == old(name) && select == old(select)
      ensures Partial(State(), err) == Apply(ModeSelect, old(State()), Get(rec, Key(ModeSelect)), parents)
      ensures Valid()
    {
      var found := Get(rec, "mode_select");
      if found.None? {
        return Some(MissingKey("mode_select"));
      }
      var mode := AsSelectMode(found.value);
      if mode.None? {
        return Some(WrongType("mode_select"));
      }
      SetModeSelect(mode.value);
      err := None;
    }

    /**
     * `picker_columns.clear()`, then one new column per saved column and one
     * new row per saved row, stopping at the first that fails.
     */
    method LoadPickerColumns(rec: seq<Member>, parents: map<string, Node>) returns (err: Option<LoadError>)
      requires ext.PickerExt?
      requires Valid()
      modifies this
      ensures name == old(name) && select == old(select)
      ensures Partial(State(), err) == Apply(PickerColumns, old(State()), Get(rec, Key(PickerColumns)), parents)
      ensures Valid()
    {
      ext := ext.(columns := []);
      var found := Get(rec, "picker_columns");
      if found.None? {
        return Some(MissingKey("picker_columns"));
      }
      var items := Iterate(found.value);
      if items.None? {
        return Some(WrongType("picker_columns"));
      }
      var cols, e := LoadColumnsFrom(items.value);
      ext := ext.(columns := cols);
      err := e;
    }

    /** `collection_bone_layers[index].name = layer_name` for each saved name in order. */
    method LoadLayerNames(rec: seq<Member>, parents: map<string, Node>) returns (err: Option<LoadError>)
      requires ext.LayerExt?
      requires Valid()
      modifies this
      ensures name == old(name) && select == old(select)
      ensures Partial(State(), err) == Apply(LayerNames, old(State()), Get(rec, Key(LayerNames)), parents)
      ensures Valid()
    {
      var found := Get(rec, "collection_bone_layers");
      if found.None? {
        return Some(MissingKey("collection_bone_layers"));
      }
      var items := Iterate(found.value);
      if items.None? {
        return Some(WrongType("collection_bone_layers"));
      }
      var names := items.value;
      var layers := ext.layers;
      err := None;
      var index := 0;
      while index < |names|
        invariant 0 <= index <= |names| && |layers| == |ext.layers|
        invariant RenameLayers(ext.layers, names, 0) == RenameLayers(layers, names, index)
      {
        if index >= |layers| {
          err := Some(LayerIndex(index));
          break;
        }
        if !names[index].Str? {
          err := Some(WrongType("collection_bone_layers"));
          break;
        }
        layers := layers[index := layers[index].(name := names[index].s)];
        index := index + 1;
      }
      ext := ext.(layers := layers);
    }

    /** One step of a straight-line load, as the first of the steps still to do. */
    method LoadStep(st: Step, ghost rest: seq<Step>, rec: seq<Member>, parents: map<string, Node>)
      returns (err: Option<LoadError>)
      requires rest != [] && rest[0] == st && AllFit(rest, ext)
      requires Valid()
      modifies this
      ensures name == old(name) && select == old(select) && SameKind(ext, old(ext))
      ensures AllFit(rest[1..], ext)
      ensures LoadSteps(rest, old(State()), rec, parents)
                == if err.Some? then Partial(State(), err) else LoadSteps(rest[1..], State(), rec, parents)
      ensures Valid()
    {
      ghost var pre := State();
      match st
      case Parent => err := LoadParent(st, rec, parents);
      case FrameParentAsWritten => err := LoadParent(st, rec, parents);
      case ModeSelect => err := LoadModeSelect(rec, parents);
      case PickerColumns => err := LoadPickerColumns(rec, parents);
      case LayerNames => err := LoadLayerNames(rec, parents);
      case ModeCompact => err := LoadOwnField(st, rec, parents);
      case LayerWithBone => err := LoadOwnField(st, rec, parents);
      case BoneName => err := LoadOwnField(st, rec, parents);
      case LabelSize => err := LoadOwnField(st, rec, parents);
      case Shrink => err := LoadOwnField(st, rec, parents);
      case _ => err := LoadBaseField(st, rec, parents);
      Advance(rest, pre, State(), err, rec, parents);
    }

    /**
     * The base `load`: the eight base fields in order, stopping at the first
     * that fails.  `parentStep` is the parent assignment: the base class's, or
     * the frame branch's as written.  The assignments are grouped into three
     * runs below.
     */
    method LoadBase(parentStep: Step, rec: seq<Member>, parents: map<string, Node>) returns (err: Option<LoadError>)
      requires parentStep == Parent || (parentStep == FrameParentAsWritten && ext.FrameExt?)
      requires Valid()
      modifies this
      ensures name == old(name) && select == old(select) && ext == old(ext)
      ensures AllFit(BaseSteps(parentStep), old(ext))
      ensures Partial(State(), err) == LoadSteps(BaseSteps(parentStep), old(State()), rec, parents)
      ensures Valid()
    {
      ghost var s0 := State();
      BaseGroups(s0.ext, parentStep);
      err := LoadLabelFields(rec, parents);
      ghost var r1 := Partial(State(), err);
      if err.None? {
        BaseGroups(r1.value.ext, parentStep);
        err := LoadSizeFields(rec, parents);
        ghost var r2 := Partial(State(), err);
        if err.None? {
          BaseGroups(r2.value.ext, parentStep);
          err := LoadBackFields(parentStep, rec, parents);
        }
        LoadStepsChain(SizeFields, BackSteps(parentStep), r1.value, r2, Partial(State(), err), rec, parents);
      }
      LoadStepsChain(LabelFields, SizeFields + BackSteps(parentStep), s0, r1, Partial(State(), err), rec, parents);
    }

    /** label, location, width */
    method LoadLabelFields(rec: seq<Member>, parents: map<string, Node>) returns (err: Option<LoadError>)
      requires Valid()
      modifies this
      ensures name == old(name) && select == old(select) && ext == old(ext)
      ensures Partial(State(), err) == LoadSteps(LabelFields, old(State()), rec, parents)
      ensures Valid()
    {
      ghost var rest := LabelFields;
      err := LoadBaseStep(Label, rest, rec, parents);
      if err.Some? { return; }
      rest := rest[1..];
      err := LoadBaseStep(Location, rest, rec, parents);
      if err.Some? { return; }
      rest := rest[1..];
      err := LoadBaseStep(Width, rest, rec, parents);
    }

    /** height, hide */
    method LoadSizeFields(rec: seq<Member>, parents: map<string, Node>) returns (err: Option<LoadError>)
      requires Valid()
      modifies this
      ensures name == old(name) && select == old(select) && ext == old(ext)
      ensures Partial(State(), err) == LoadSteps(SizeFields, old(State()), rec, parents)
      ensures Valid()
    {
      ghost var rest := SizeFields;
      err := LoadBaseStep(Height, rest, rec, parents);
      if err.Some? { return; }
      rest := rest[1..];
      err := LoadBaseStep(Hide, rest, rec, parents);
    }

    /** parent, use_custom_color, color */
    method LoadBackFields(parentStep: Step, rec: seq<Member>, parents: map<string, Node>) returns (err: Option<LoadError>)
      requires parentStep == Parent || (parentStep == FrameParentAsWritten && ext.FrameExt?)
      requires Valid()
      modifies this
      ensures name == old(name) && select == old(select) && ext == old(ext)
      ensures AllFit(BackSteps(parentStep), old(ext))
      ensures Partial(State(), err) == LoadSteps(BackSteps(parentStep), old(State()), rec, parents)
      ensures Valid()
    {
      ghost var rest := BackSteps(parentStep);
      err := LoadBaseStep(parentStep, rest, rec, parents);
      if err.Some? { return; }
      rest := rest[1..];
      err := LoadBaseStep(UseCustomColor, rest, rec, parents);
      if err.Some? { return; }
      rest := rest[1..];
      err := LoadBaseStep(Color, rest, rec, parents);
    }

    /** One base field of a straight-line load, as the first of the steps still to do. */
    method LoadBaseStep(st: Step, ghost rest: seq<Step>, rec: seq<Member>, parents: map<string, Node>)
      returns (err: Option<LoadError>)
      requires rest != [] && rest[0] == st && AllFit(rest, ext)
      requires st in BaseSchema || st == FrameParentAsWritten
      requires Valid()
      modifies this
      ensures name == old(name) && select == old(select) && ext == old(ext)
      ensures AllFit(rest[1..], ext)
      ensures LoadSteps(rest, old(State()), rec, parents)
                == if err.Some? then Partial(State(), err) else LoadSteps(rest[1..], State(), rec, parents)
      ensures Valid()
    {
      ghost var pre := State();
      if st == Parent || st == FrameParentAsWritten {
        err := LoadParent(st, rec, parents);
      } else {
        err := LoadBaseField(st, rec, parents);
      }
      Advance(rest, pre, State(), err, rec, parents);
    }

    /** A type's own `load` assignments after the base ones. */
    method LoadOwnFields(rec: seq<Member>, parents: map<string, Node>) returns (err: Option<LoadError>)
      requires Valid()
      modifies this
      ensures name == old(name) && select == old(select)
      ensures AllFit(Extra(old(ext)), old(ext))
      ensures Partial(State(), err) == LoadSteps(Extra(old(ext)), old(State()), rec, parents)
      ensures Valid()
    {
      var rest := Extra(ext);
      assert AllFit(rest, ext) by { assert Schema(ext) == BaseSchema + rest; assert forall i :: 0 <= i < |rest| ==> rest[i] == Schema(ext)[|BaseSchema| + i]; }
      err := None;
      if rest == [] { return; }
      err := LoadStep(rest[0], rest, rec, parents);
      if err.Some? || |rest| == 1 { return; }
      rest := rest[1..];
      err := LoadStep(rest[0], rest, rec, parents);
      if err.Some? || |rest| == 1 { return; }
      rest := rest[1..];
      err := LoadStep(rest[0], rest, rec, parents);
    }

    /**
     * `load(save_dict, nodes)` of the four node types: the base fields, then
     * the type's own.  On a frame it is the graph's frame branch with the
     * parent looked up in the map (the corrected branch).
     */
    method Load(rec: seq<Member>, parents: map<string, Node>) returns (err: Option<LoadError>)
      requires Valid()
      modifies this
      ensures name == old(name) && select == old(select)
      ensures Partial(State(), err) == LoadSteps(Schema(old(ext)), old(State()), rec, parents)
      ensures Valid()
    {
      ghost var s0 := State();
      err := LoadBase(Parent, rec, parents);
      ghost var r1 := Partial(State(), err);
      BaseStepsParent();
      if err.None? {
        err := LoadOwnFields(rec, parents);
      }
      LoadStepsChain(BaseSchema, Extra(s0.ext), s0, r1, Partial(State(), err), rec, parents);
    }

    /** The graph's frame branch as written: its parent line names the undefined `nodes`. */
    method LoadFrameAsWritten(rec: seq<Member>, parents: map<string, Node>) returns (err: Option<LoadError>)
      requires ext.FrameExt?
      requires Valid()
      modifies this
      ensures name == old(name) && select == old(select)
      ensures Partial(State(), err) == LoadSteps(FrameSchemaAsWritten, old(State()), rec, parents)
      ensures Valid()
    {
      ghost var s0 := State();
      err := LoadBase(FrameParentAsWritten, rec, parents);
      ghost var r1 := Partial(State(), err);
      BaseStepsFrame();
      if err.None? {
        err := LoadOwnFields(rec, parents);
      }
      LoadStepsChain(BaseSteps(FrameParentAsWritten), Extra(s0.ext), s0, r1, Partial(State(), err), rec, parents);
    }

    /** `mode_select = m` with its update callback: every row takes the mode. */
    method SetModeSelect(m: SelectMode)
      requires ext.PickerExt?
      modifies this`ext
      ensures ext == old(ext).(modeSelect := m, columns := WithModeSelect(old(ext).columns, m))
      ensures old(Valid()) ==> Valid()
    {
      ext := ext.(modeSelect := m);
      var cols := ext.columns;
      for i := 0 to |cols|
        invariant |cols| == |ext.columns|
        invariant forall k :: 0 <= k < i ==> cols[k] == WithModeSelect(ext.columns, m)[k]
        invariant forall k :: i <= k < |cols| ==> cols[k] == ext.columns[k]
      {
        var rows := cols[i].rows;
        for j := 0 to |rows|
          invariant |rows| == |cols[i].rows|
          invariant forall k :: 0 <= k < j ==> rows[k] == cols[i].rows[k].(modeSelect := m)
          invariant forall k :: j <= k < |rows| ==> rows[k] == cols[i].rows[k]
        {
          rows := rows[j := rows[j].(modeSelect := m)];
        }
        cols := cols[i := cols[i].(rows := rows)];
      }
      assert cols == WithModeSelect(ext.columns, m);
      ext := ext.(columns := cols);
    }

    /** `if hasattr(node, 'mode_compact'): node.mode_compact = mode` */
    method SwitchCompact(mode: bool)
      modifies this`ext
      ensures ext == Compacted(old(ext), mode)
      ensures old(Valid()) ==> Valid()
    {
      if HasSave(ext) {
        ext := ext.(modeCompact := mode);
      }
    }

    /** `if hasattr(node, 'mode_select'): node.mode_select = mode`, with the picker's update callback. */
    method SwitchPickerMode(mode: SelectMode)
      modifies this`ext
      ensures ext == ModeSwitched(old(ext), mode)
      ensures old(Valid()) ==> Valid()
    {
      if ext.PickerExt? {
        SetModeSelect(mode);
      }
    }

    /**
     * `object_armature = a` with its update callback (the push-down part): a
     * picker binds every row to `a`; a bone-layer node recomputes `has_bone`
     * per layer from the bones' layer masks, or resets every flag to true
     * without an armature; the property nodes only store the armature.
     */
    method SetArmature(a: Armature?)
      requires !ext.FrameExt? && !ext.RerouteExt?
      requires Valid()
      modifies this
      ensures name == old(name) && select == old(select)
      ensures State() == old(State()).(ext := ext)
      ensures old(ext).PickerExt? ==> ext == old(ext).(armature := a, columns := WithArmature(old(ext).columns, a))
      ensures old(ext).LayerExt? && a != null ==> ext == old(ext).(armature := a, layers := WithHasBone(old(ext).layers, a.bones))
      ensures old(ext).LayerExt? && a == null ==> ext == old(ext).(armature := a, layers := AllHaveBone(old(ext).layers))
      ensures old(ext).BonePropsExt? || old(ext).ObjectPropsExt? ==> ext == old(ext).(armature := a)
      ensures Valid()
    {
      ext := ext.(armature := a);
      if ext.PickerExt? {
        BindRows(a);
      } else if ext.LayerExt? {
        MarkLayers(a);
      }
    }

    /** The picker's push-down: every row's `object_armature` becomes `a`. */
    method BindRows(a: Armature?)
      requires ext.PickerExt?
      requires Valid()
      modifies this
      ensures name == old(name) && select == old(select)
      ensures State() == old(State()).(ext := old(ext).(columns := WithArmature(old(ext).columns, a)))
      ensures Valid()
    {
      var cols := ext.columns;
      for i := 0 to |cols|
        invariant |cols| == |ext.columns|
        invariant forall k :: 0 <= k < i ==> cols[k] == WithArmature(ext.columns, a)[k]
        invariant forall k :: i <= k < |cols| ==> cols[k] == ext.columns[k]
      {
        var rows := cols[i].rows;
        for j := 0 to |rows|
          invariant |rows| == |cols[i].rows|
          invariant forall k :: 0 <= k < j ==> rows[k] == cols[i].rows[k].(armature := a)
          invariant forall k :: j <= k < |rows| ==> rows[k] == cols[i].rows[k]
        {
          rows := rows[j := rows[j].(armature := a)];
        }
        cols := cols[i := cols[i].(rows := rows)];
      }
      assert cols == WithArmature(ext.columns, a);
      ext := ext.(columns := cols);
    }

    /** The bone-layer node's `has_bone` pass, layer by layer. */
    method MarkLayers(a: Armature?)
      requires ext.LayerExt? && Valid()
      modifies this
      ensures name == old(name) && select == old(select)
      ensures State() == old(State()).(ext := old(ext).(layers := if a != null then WithHasBone(old(ext).layers, a.bones) else AllHaveBone(old(ext).layers)))
      ensures Valid()
    {
      var layers := ext.layers;
      for index := 0 to |layers|
        invariant |layers| == |ext.layers|
        invariant forall k :: 0 <= k < index ==>
                    layers[k] == if a != null then WithHasBone(ext.layers, a.bones)[k] else AllHaveBone(ext.layers)[k]
        invariant forall k :: index <= k < |layers| ==> layers[k] == ext.layers[k]
      {
        var hasBone := if a != null then AnyOnLayer(a.bones, index) else true;
        layers := layers[index := layers[index].(hasBone := hasBone)];
      }
      assert layers == if a != null then WithHasBone(ext.layers, a.bones) else AllHaveBone(ext.layers);
      ext := ext.(layers := layers);
    }

    /**
     * `update_picker` of row `j` of column `c`, run when its momentary
     * `picker` flag is assigned: a set flag is reset, and then the row's bone,
     * when the row has an armature and a bone name and the armature has that
     * bone, is selected, SINGLE mode deselecting every other bone first.
     */
    method UpdatePicker(c: nat, j: nat)
      requires ext.PickerExt? && c < |ext.columns| && j < |ext.columns[c].rows|
      requires Valid()
      modifies this, ext.columns[c].rows[j].armature
      ensures name == old(name) && select == old(select)
      ensures var row := old(ext.columns[c].rows[j]);
              State() == old(State()).(ext := old(ext).(columns := old(ext).columns[c := old(ext).columns[c].(rows := old(ext).columns[c].rows[j := row.(picker := false)])]))
      ensures var row := old(ext.columns[c].rows[j]);
              row.armature != null ==>
                row.armature.bones == if row.picker && row.boneName != "" && FindBone(old(row.armature.bones), row.boneName).Some?
                                      then Pick(old(row.armature.bones), FindBone(old(row.armature.bones), row.boneName).value, row.modeSelect)
                                      else old(row.armature.bones)
      ensures Valid()
    {
      var row := ext.columns[c].rows[j];
      if !row.picker {
        assert row.(picker := false) == row;
        assert ext.columns[c].rows[j := row] == ext.columns[c].rows;
        return;
      }
      ext := ext.(columns := ext.columns[c := ext.columns[c].(rows := ext.columns[c].rows[j := row.(picker := false)])]);
      var arm := row.armature;
      if arm != null && row.boneName != "" {
        var target := FindBone(arm.bones, row.boneName);
        if target.Some? {
          SelectBone(arm, target.value, row.modeSelect);
        }
      }
    }

    /**
     * The add-column operator: a new column with one row that takes the
     * node's select mode and armature, appended, or moved to the front.
     */
    method AddPickerColumn(isAppend: bool)
      requires ext.PickerExt?
      requires Valid()
      modifies this
      ensures name == old(name) && select == old(select)
      ensures State() == old(State()).(ext := old(ext).(columns := AddColumn(old(ext).columns, old(ext).modeSelect, old(ext).armature, isAppend)))
      ensures Valid()
    {
      var row := DefaultRow.(modeSelect := ext.modeSelect);
      row := row.(armature := ext.armature);
      var grown := ext.columns + [DefaultColumn.(rows := [row])];
      if !isAppend {
        grown := Move(grown, |grown| - 1, 0);
      }
      assert grown == AddColumn(ext.columns, ext.modeSelect, ext.armature, isAppend);
      ext := ext.(columns := grown);
    }

    /** The remove-column operator: `picker_columns.remove(index)`; `ok` is false on an IndexError. */
    method RemovePickerColumn(index: int) returns (ok: bool)
      requires ext.PickerExt?
      requires Valid()
      modifies this
      ensures name == old(name) && select == old(select)
      ensures ok == RemoveColumn(old(ext).columns, index).Some?
      ensures State() == old(State()).(ext := old(ext).(columns := if ok then RemoveColumn(old(ext).columns, index).value else old(ext).columns))
      ensures Valid()
    {
      ok := 0 <= index < |ext.columns|;
      if ok {
        ext := ext.(columns := RemoveAt(ext.columns, index));
      }
    }

    /** The add-row operator: one row, with the node's select mode and armature, at the end of column `index`. */
    method AddPickerRow(index: int) returns (ok: bool)
      requires ext.PickerExt?
      requires Valid()
      modifies this
      ensures name == old(name) && select == old(select)
      ensures ok == AddRow(old(ext).columns, index, old(ext).modeSelect, old(ext).armature).Some?
      ensures State() == old(State()).(ext := old(ext).(columns := if ok then AddRow(old(ext).columns, index, old(ext).modeSelect, old(ext).armature).value else old(ext).columns))
      ensures Valid()
    {
      var c := Resolve(index, |ext.columns|);
      ok := c.Some?;
      if ok {
        var row := DefaultRow.(modeSelect := ext.modeSelect);
        row := row.(armature := ext.armature);
        ext := ext.(columns := ext.columns[c.value := ext.columns[c.value].(rows := ext.columns[c.value].rows + [row])]);
      }
    }

    /** The remove-row operator: `picker_columns[column].rows.remove(row)`. */
    method RemovePickerRow(column: int, row: int) returns (ok: bool)
      requires ext.PickerExt?
      requires Valid()
      modifies this
      ensures name == old(name) && select == old(select)
      ensures ok == RemoveRow(old(ext).columns, column, row).Some?
      ensures State() == old(State()).(ext := old(ext).(columns := if ok then RemoveRow(old(ext).columns, column, row).value else old(ext).columns))
      ensures Valid()
    {
      var c := Resolve(column, |ext.columns|);
      ok := c.Some? && 0 <= row < |ext.columns[c.value].rows|;
      if ok {
        ext := ext.(columns := ext.columns[c.value := ext.columns[c.value].(rows := RemoveAt(ext.columns[c.value].rows, row))]);
      }
    }

    /** The popup row operator's `execute`: the row's bone name and label flag. */
    method EditPickerRow(column: int, row: int, boneName: string, showBoneName: bool) returns (ok: bool)
      requires ext.PickerExt?
      requires Valid()
      modifies this
      ensures name == old(name) && select == old(select)
      ensures ok == SetRowBinding(old(ext).columns, column, row, boneName, showBoneName).Some?
      ensures State() == old(State()).(ext := old(ext).(columns := if ok then SetRowBinding(old(ext).columns, column, row, boneName, showBoneName).value else old(ext).columns))
      ensures Valid()
    {
      var c := Resolve(column, |ext.columns|);
      if c.None? {
        return false;
      }
      var j := Resolve(row, |ext.columns[c.value].rows|);
      if j.None? {
        return false;
      }
      var cell := ext.columns[c.value].rows[j.value];
      cell := cell.(boneName := boneName);
      cell := cell.(showBoneName := showBoneName);
      ext := ext.(columns := ext.columns[c.value := ext.columns[c.value].(rows := ext.columns[c.value].rows[j.value := cell])]);
      ok := true;
    }
  }

  /** What the compact-mode switch does to one selected node: only nPick nodes have the field. */
  function Compacted(ext: Extension, mode: bool): (r: Extension)
    ensures SameKind(r, ext)
    ensures HasSave(ext) ==> r.modeCompact == mode
    ensures HasSave(ext) ==> r.(modeCompact := ext.modeCompact) == ext
    ensures !HasSave(ext) ==> r == ext
  {
    if HasSave(ext) then ext.(modeCompact := mode) else ext
  }

  /** What the picker-mode switch does to one selected node: only pickers have the field. */
  function ModeSwitched(ext: Extension, mode: SelectMode): (r: Extension)
    ensures SameKind(r, ext)
    ensures ext.PickerExt? ==> r.modeSelect == mode && r.modeCompact == ext.modeCompact && r.armature == ext.armature
    ensures ext.PickerExt? ==> r.columns == WithModeSelect(ext.columns, mode)
    ensures !ext.PickerExt? ==> r == ext
  {
    if ext.PickerExt? then ext.(modeSelect := mode, columns := WithModeSelect(ext.columns, mode)) else ext
  }

  /** Switching to the same picker mode twice is switching once. */
  lemma ModeSwitchedTwice(ext: Extension, mode: SelectMode)
    ensures ModeSwitched(ModeSwitched(ext, mode), mode) == ModeSwitched(ext, mode)
  {
    if ext.PickerExt? {
      ModeSelectLastWins(ext.columns, mode, mode);
    }
  }

  /**
   * The click's selection pass on `arm`: in SINGLE mode every bone but `t`
   * is deselected, one by one; then `t` is selected.
   */
  method SelectBone(arm: Armature, t: nat, mode: SelectMode)
    requires t < |arm.bones|
    modifies arm
    ensures arm.bones == Pick(old(arm.bones), t, mode)
  {
    if mode == Single {
      for k := 0 to |arm.bones|
        invariant |arm.bones| == |old(arm.bones)|
        invariant forall i :: 0 <= i < k ==> arm.bones[i] == Deselected(old(arm.bones), t)[i]
        invariant forall i :: k <= i < |arm.bones| ==> arm.bones[i] == old(arm.bones)[i]
      {
        if k != t {
          arm.bones := arm.bones[k := arm.bones[k].(select := false)];
        }
      }
      assert arm.bones == Deselected(old(arm.bones), t);
    }
    arm.bones := arm.bones[t := arm.bones[t].(select := true)];
  }

  /** `draw_label` of the four node types that define one. */
  function DrawLabel(ext: Extension): (r: string)
    requires !ext.FrameExt? && !ext.RerouteExt?
    ensures ext.PickerExt? ==> r == "Picker"
    ensures ext.LayerExt? ==> r == "Bone Layer"
    ensures ext.ObjectPropsExt? ==> r == "Custom Properties"
    ensures ext.BonePropsExt? ==> (r == "Custom Properties (Bone)" <==> ext.boneName == "")
  {
    match ext
    case PickerExt(_, _, _, _) => "Picker"
    case LayerExt(_, _, _, _) => "Bone Layer"
    case BonePropsExt(_, _, boneName) =>
      if boneName != "" then boneName + " : Custom Properties (Bone)" else "Custom Properties (Bone)"
    case ObjectPropsExt(_, _) => "Custom Properties"
  }

  /**
   * A bone properties node's label names its bone: two such nodes with the
   * same label are bound to the same bone name, and every label ends in the
   * node type's own title.
   */
  lemma BonePropsLabel(a: Extension, b: Extension)
    requires a.BonePropsExt? && b.BonePropsExt?
    ensures DrawLabel(a) == DrawLabel(b) ==> a.boneName == b.boneName
    ensures var t := "Custom Properties (Bone)"; |DrawLabel(a)| >= |t| && DrawLabel(a)[|DrawLabel(a)| - |t|..] == t
    ensures a.boneName != "" ==> DrawLabel(a)[..|a.boneName|] == a.boneName
  {
    var t := " : Custom Properties (Bone)";
    var title := "Custom Properties (Bone)";
    if a.boneName != "" {
      assert DrawLabel(a) == (a.boneName + " : ") + title;
    }
    if a.boneName != b.boneName {
      if a.boneName != "" && b.boneName != "" {
        assert a.boneName == DrawLabel(a)[..|DrawLabel(a)| - |t|];
        assert b.boneName == DrawLabel(b)[..|DrawLabel(b)| - |t|];
      } else {
        assert |DrawLabel(a)| != |DrawLabel(b)|;
      }
    }
  }

  /**
   * The load loop over saved columns: `new_col = picker_columns.add()`, then
   * its `size` and its rows, stopping at the first column that fails (the
   * column added for it stays).
   */
  method LoadColumnsFrom(items: seq<Value>) returns (cols: seq<Column>, err: Option<LoadError>)
    ensures Partial(cols, err) == LoadColumns(items, [])
  {
    cols, err := [], None;
    var i := 0;
    while i < |items|
      invariant 0 <= i <= |items|
      invariant LoadColumns(items, []) == LoadEach(LoadColumn, items[i..], cols)
    {
      assert items[i..][0] == items[i] && items[i..][1..] == items[i + 1..];
      var col, e := LoadColumnFrom(items[i]);
      cols := cols + [col];
      if e.Some? {
        return cols, e;
      }
      i := i + 1;
    }
  }

  /** One saved column: `new_col.size = col_data['size']`, then a new row per saved row. */
  method LoadColumnFrom(item: Value) returns (col: Column, err: Option<LoadError>)
    ensures Partial(col, err) == LoadColumn(item)
  {
    col := DefaultColumn;
    var size := Field(item, "size");
    if size.Failed? {
      return col, Some(size.e);
    }
    if AsReal(size.v).None? {
      return col, Some(WrongType("size"));
    }
    col := col.(size := AsReal(size.v).value);
    var rows := Field(item, "rows");
    if rows.Failed? {
      return col, Some(rows.e);
    }
    var items := Iterate(rows.v);
    if items.None? {
      return col, Some(WrongType("rows"));
    }
    err := None;
    ghost var sized := col;
    var j := 0;
    while j < |items.value|
      invariant 0 <= j <= |items.value|
      invariant col == sized.(rows := col.rows)
      invariant LoadRows(items.value, []) == LoadEach(LoadRow, items.value[j..], col.rows)
    {
      assert items.value[j..][0] == items.value[j] && items.value[j..][1..] == items.value[j + 1..];
      var row := LoadRow(items.value[j]);
      col := col.(rows := col.rows + [row.value]);
      if row.err.Some? {
        return col, row.err;
      }
      j := j + 1;
    }
  }

  function BackSteps(parentStep: Step): seq<Step>
  {
    [parentStep, UseCustomColor, Color]
  }

  function BaseSteps(parentStep: Step): seq<Step>
  {
    LabelFields + (SizeFields + BackSteps(parentStep))
  }

  const LabelFields: seq<Step> := [Label, Location, Width]
  const SizeFields: seq<Step> := [Height, Hide]

  lemma BaseStepsParent()
    ensures BaseSteps(Parent) == BaseSchema
  {
  }

  lemma BaseStepsFrame()
    ensures BaseSteps(FrameParentAsWritten) + Extra(FrameExt(0, false)) == FrameSchemaAsWritten
  {
  }

  /** Bookkeeping for a straight-line load: one step of the schema done. */
  lemma Advance(steps: seq<Step>, pre: NodeState<Node>, post: NodeState<Node>, err: Option<LoadError>,
                rec: seq<Member>, parents: map<string, Node>)
    requires steps != [] && AllFit(steps, pre.ext)
    requires Partial(post, err) == Apply(steps[0], pre, Get(rec, Key(steps[0])), parents)
    ensures AllFit(steps[1..], post.ext)
    ensures LoadSteps(steps, pre, rec, parents) == if err.Some? then Partial(post, err) else LoadSteps(steps[1..], post, rec, parents)
  {
    forall i | 0 <= i < |steps[1..]| ensures Fits(steps[1..][i], post.ext) {
      FitsSameKind(steps[1..][i], pre.ext, post.ext);
    }
  }

  /** The runs of base assignments fit the node they load. */
  lemma BaseGroups(ext: Extension, parentStep: Step)
    requires parentStep == Parent || (parentStep == FrameParentAsWritten && ext.FrameExt?)
    ensures AllFit(LabelFields, ext) && AllFit(SizeFields, ext) && AllFit(BackSteps(parentStep), ext)
    ensures AllFit(SizeFields + BackSteps(parentStep), ext)
    ensures AllFit(BaseSteps(parentStep), ext)
  {
  }

  /** Loading `a + b` is loading `a`, then (if that succeeded) `b` from where `a` left off. */
  lemma LoadStepsChain<P>(a: seq<Step>, b: seq<Step>, s0: NodeState<P>, r1: Partial<NodeState<P>>, r2: Partial<NodeState<P>>,
                          rec: seq<Member>, parents: map<string, P>)
    requires AllFit(a, s0.ext) && AllFit(b, s0.ext)
    requires r1 == LoadSteps(a, s0, rec, parents)
    requires r1.err.None? ==> AllFit(b, r1.value.ext) && r2 == LoadSteps(b, r1.value, rec, parents)
    ensures AllFit(a + b, s0.ext)
    ensures LoadSteps(a + b, s0, rec, parents) == if r1.err.Some? then r1 else r2
  {
    LoadStepsAppend(a, b, s0, rec, parents);
    assert AllFit(a + b, s0.ext) by {
      forall i | 0 <= i < |a + b| ensures Fits((a + b)[i], s0.ext) {
        if i >= |a| { assert (a + b)[i] == b[i - |a|]; }
      }
    }
  }
}
