# nPick node graph — a Dafny model

nPick is a Blender add-on that adds a node editor for posing armatures. This project models its core:

- **Node records.** Each node saves its live state to a flat record and loads it back. Every record starts with the base fields `type`, `label`, `location`, `width`, `height`, `hide`, `parent`, `use_custom_color` and `color`. Each node type then adds its own fields:
  - Picker: `mode_compact`, `mode_select`, `picker_columns`.
  - Bone Layer: `mode_compact`, `layer_with_bone`, `collection_bone_layers`.
  - Custom Properties (Bone): `mode_compact`, `bone_name`.
  - Custom Properties: `mode_compact`.
  - Frame: `label_size`, `shrink`. The graph operators save and load frames inline.
- **The document.** Saving walks the tree and writes `{version: [0, 0, 1], nodes: {name: record}}`. Loading creates one node per entry in document order. It maps the entry's key to the new node, then loads the record. A parent is looked up in that map.
- **The picker grid.** A grid is columns of rows; each row binds a button to a bone.
  - Columns and rows are added, removed and edited.
  - The node's select mode and armature are pushed down to every row.
  - Clicking a row selects its bone. In SINGLE mode every other bone is deselected first; in MULTI mode nothing else changes.
- **The bone-layer table.**
  - Thirty-two named layers.
  - A `has_bone` flag per layer, computed from the bones' layer masks.
  - A "with bone" display filter and a column-break rule.
- **The custom-property panels.** They list a bone's or an object's `_RNA_UI` keys in sorted order.
- **The pie-menu switches.** They set `mode_compact` or `mode_select` on every selected node.

## Layout

| file | module | what |
|---|---|---|
| wrappers.dfy | `Wrappers` | `Option` |
| json.dfy | `Json` | JSON values. An object is an ordered list of members. Also dict lookup, dict store, Python iteration and truthiness. |
| scene.dfy | `Scene` | Bones, and the armature as a class holding its bones. Bone lookup by name and the click's selection rule. |
| grid.dfy | `Grid` | Rows and columns, Python's index rules, and the grid operations as functions on sequences. |
| layers.dfy | `Layers` | The layer table: default names, `has_bone`, the filter and the column breaks. |
| codec.dfy | `Codec` | The record schema of each node type, `Encode` (save), and `LoadSteps` (load). Load applies the schema's steps in order and stops at the first error. |
| codec_properties.dfy | `CodecProperties` | Record keys, read-back of saved fields, the save/load round trip, parent resolution, and the frame finding. |
| nodes.dfy | `Nodes` | The `Node` class: the loads, callbacks and grid operators as methods that update its fields. Each is proved against the `Codec` and `Grid` functions. |
| graph.dfy | `Graph` | The `NodeTree` class: the save operator, the one-pass load operator and the two switch operators. |
| custom_props.dfy | `CustomProps` | Python's string order, `keys.sort()`, and the two panels. |

A node's type-specific part is the `Codec.Extension` datatype. The Python code branches on `hasattr` instead. The base part of `save`/`load` is copied in all four node files and is modelled once. Float fields (location, sizes, colours) are `real` values that are only copied.

A failed load is modelled by its Python exception, as a `Codec.LoadError`. The assignments made before the failing one stay in place.

## Model

| member | source | states |
|---|---|---|
| Json.Get | nPick/production/node_bone_picker.py:28-35 | `d[key]` finds a value iff some member has that key, and then it is the first such member's value |
| Json.Put | nPick/production/editor_type_operator.py:91 | storing under a new key appends a member at the end; storing under an existing key replaces that member in place |
| Json.Iterate | nPick/production/node_bone_picker.py:278 | iterating a list yields its items, a string its characters, an object its keys; null, booleans and numbers cannot be iterated |
| Scene.FindBone | nPick/production/node_bone_picker.py:61 | `pose.bones.get(name)` is the first bone with that name, and is none iff no bone has it |
| Scene.Pick | nPick/production/node_bone_picker.py:64-70 | the click selects the target bone. SINGLE leaves exactly that bone selected. MULTI leaves every other bone unchanged. Names and layer masks never change. |
| Scene.Deselected | nPick/production/node_bone_picker.py:66-67 | every bone except the target has its select flag cleared; the target is untouched |
| Scene.TwoClicks | nPick/production/node_bone_picker.py:64-70 | clicking y then z: SINGLE leaves only z selected; MULTI leaves the earlier selection plus y and z |
| Grid.Resolve | nPick/production/node_bone_picker.py:349 | a collection index is valid iff `-len <= i < len`; a negative index counts from the end |
| Grid.RemoveAt | nPick/production/node_bone_picker.py:331 | removing entry i keeps the entries before i and shifts the later ones down by one |
| Grid.Move | nPick/production/node_bone_picker.py:313 | `move(from, to)` puts entry `from` at `to` and keeps the same multiset of entries |
| Grid.AddColumn | nPick/production/node_bone_picker.py:296-315 | one new column holds one row with the node's select mode and armature. It goes at the end, or at index 0 with the existing columns in their old order. |
| Grid.RemoveColumn | nPick/production/node_bone_picker.py:326-333 | succeeds iff `0 <= index < len` (remove does not wrap); the other columns keep their order |
| Grid.AddRow | nPick/production/node_bone_picker.py:344-358 | succeeds iff the column index is valid (it wraps); one row with the node's mode and armature is appended to that column only |
| Grid.RemoveRow | nPick/production/node_bone_picker.py:370-378 | succeeds iff the column index is valid (it wraps) and the row index is in range (no wrap); only that row is removed |
| Grid.SetRowBinding | nPick/production/node_bone_picker.py:436-446 | succeeds iff both indices are valid (both wrap); only that row's `bone_name` and `show_bone_name` change |
| Grid.WithModeSelect | nPick/production/node_bone_picker.py:125-128 | every row of every column takes the mode; sizes, row counts and the rows' other fields stay |
| Grid.WithArmature | nPick/production/node_bone_picker.py:150-153 | every row of every column takes the armature; everything else stays |
| Grid.ModeSelectLastWins | nPick/production/node_bone_picker.py:125-128 | pushing one mode and then another leaves the rows as if only the second had been pushed |
| Grid.AddFrontThenRemove | nPick/production/node_bone_picker.py:312-313 | adding a column at the front and then removing column 0 gives back the original columns |
| Layers.DecimalString | nPick/production/node_object_layer.py:98 | `str(n)` is a non-empty string of decimal digits, of length two or more from 10 on |
| Layers.DecimalInjective | nPick/production/node_object_layer.py:98 | different numbers have different decimal strings |
| Layers.DefaultLayers | nPick/production/node_object_layer.py:95-98 | `init` adds 32 layers; layer i is named `Layer i+1` and has `has_bone` true |
| Layers.DefaultLayerNames | nPick/production/node_object_layer.py:95-98 | the names run from `Layer 1` to `Layer 32` and are pairwise distinct |
| Layers.AnyOnLayer | nPick/production/node_object_layer.py:75 | true iff some bone has layer `index` set in its mask |
| Layers.WithHasBone | nPick/production/node_object_layer.py:71-75 | with an armature, layer i's `has_bone` is true iff some bone is on layer i; names are kept |
| Layers.AllHaveBone | nPick/production/node_object_layer.py:76-79 | without an armature, every layer's `has_bone` becomes true and nothing else changes |
| Layers.WithBone | nPick/production/node_object_layer.py:125 | the filter keeps exactly the layers with `has_bone` set |
| Layers.WithBoneAppend | nPick/production/node_object_layer.py:125 | filtering is done piecewise, so it keeps the layers' order |
| Layers.WithBoneIdempotent | nPick/production/node_object_layer.py:125 | filtering twice equals filtering once; a table where every layer has a bone is unchanged |
| Layers.Shown | nPick/production/node_object_layer.py:127 | the drawn layers: all of them with the filter off, exactly those with a bone with it on |
| Layers.BreaksOfFullTable | nPick/production/node_object_layer.py:129 | a new column starts at {8, 16, 24} when width > 500, at {16} when 300 < width <= 500, and nowhere otherwise |
| Layers.ToggledLayersAsWritten | nPick/production/node_object_layer.py:127-146 | as written, the k-th drawn entry toggles armature layer k (its position in the drawn list) |
| Layers.ToggleMismatchWhenFiltered | nPick/production/node_object_layer.py:127-137 | with the filter on and Layer 1 empty, the first drawn entry is Layer 2, but it toggles armature layer 1 |
| Layers.ShownIndices | nPick/production/node_object_layer.py:125-127 | the table positions of the drawn layers, strictly increasing, picking out exactly the drawn list |
| Layers.ToggledLayers | nPick/production/node_object_layer.py:127-146 | corrected: the k-th drawn entry toggles the armature layer at that entry's own table position |
| Codec.BlankExt | nPick/production/editor_type_operator.py:142 | `nodes.new(type)` succeeds for the six node types the model covers, and the node has that type; any other id gives no node |
| Codec.Field | nPick/production/node_bone_picker.py:280-284 | `item[key]` yields a value iff the item is an object holding the key, and that value is the member's |
| Codec.AsReals | nPick/production/node_bone_picker.py:29 | a vector property takes only a list of exactly n numbers, and the vector has n components |
| Codec.SelectModeName | nPick/production/node_bone_picker.py:261 | the saved mode name reads back as the same mode |
| Codec.AsSelectMode | nPick/production/node_bone_picker.py:130-137 | the enum property accepts exactly `"SINGLE"` and `"MULTI"` |
| Codec.Reals | nPick/production/node_bone_picker.py:15 | `list(v)` saves a vector element by element and keeps its length |
| Codec.EncodeRows | nPick/production/node_bone_picker.py:262 | one saved row per live row, in order, holding only `bone_name` and `show_bone_name` |
| Codec.EncodeColumns | nPick/production/node_bone_picker.py:262 | one saved `{size, rows}` per live column, in order |
| Codec.EncodeLayerNames | nPick/production/node_object_layer.py:212 | the saved layer list is the layer names in collection order |
| Codec.Encode | nPick/production/node_bone_picker.py:10-23 | a record is `type` (the type id), then one member per schema step in schema order, each holding the value that step saves |
| Codec.ResolveParent | nPick/production/node_bone_picker.py:33 | `nodes[v]['node']` resolves iff v is a string key of the map, and then it is the map's node |
| Codec.Schema | nPick/production/node_bone_picker.py:25-35 | every line of a node type's load schema fits that type: each field it sets is one the node has |
| Codec.Apply | nPick/production/node_bone_picker.py:28-35 | one load line (`setattr` of `save_dict[key]`, a missing key raising KeyError) never changes the node's type |
| Codec.ApplyValue | nPick/production/node_bone_picker.py:28-35 | storing one loaded value never changes the node's type |
| Codec.LoadSteps | nPick/production/node_bone_picker.py:266-285 | `load` runs its lines in order and stops at the first error, never changing the node's type; what it restores is `CodecProperties.RoundTrip` |
| Codec.RenameLayers | nPick/production/node_object_layer.py:225-226 | loading layer names never adds or removes layers |
| CodecProperties.BaseStepKeys | nPick/production/node_bone_picker.py:12-22 | the base steps `Codec.BaseSchema`, with which every `Codec.Schema` starts, save under `label` … `color`, in that order |
| CodecProperties.ExtraStepKeys | nPick/production/node_bone_picker.py:260-262 | `Codec.Extra`, each node type's own steps, saves under its own keys in source order |
| CodecProperties.RecordKeys | nPick/production/editor_type_operator.py:93-106 | a record's keys are the nine base keys, then the node type's own keys, in that order. For a frame these are `label_size` and `shrink`. |
| CodecProperties.RecordDistinct | nPick/production/node_bone_picker.py:12-23 | no record holds a key twice |
| CodecProperties.SavedSteps | nPick/production/node_object_layer.py:204-214 | every schema step's saved value can be read back from the record under the step's key |
| CodecProperties.SavedFields | nPick/production/node_object_custom_properties.py:12-23 | `type` reads back as the type id, `parent` as the parent's name or null, `location` as the location. The location and colour lists keep their lengths. |
| CodecProperties.LoadRowEncoded | nPick/production/node_bone_picker.py:283-285 | `Codec.LoadRow` loads a saved row onto a fresh row with its binding, the other fields at their defaults |
| CodecProperties.LoadColumnEncoded | nPick/production/node_bone_picker.py:279-285 | `Codec.LoadColumn` loads a saved column onto a fresh column with its size and its rows |
| CodecProperties.LoadEachPrefix | nPick/production/node_bone_picker.py:278-285 | the load loop `Codec.LoadEach` keeps the entries before it in front, and adds at most one entry per saved item |
| CodecProperties.LoadEachAll | nPick/production/node_bone_picker.py:278-285 | when every saved item loads, the loop adds exactly one entry per item, in order |
| CodecProperties.LoadEachFails | nPick/production/node_bone_picker.py:278-285 | one saved item that fails makes the whole loop fail |
| CodecProperties.LoadRowsEncoded | nPick/production/node_bone_picker.py:282-285 | loading saved rows adds one row per saved row, in order, each with its binding |
| CodecProperties.LoadColumnsEncoded | nPick/production/node_bone_picker.py:276-285 | `Codec.LoadColumns` on saved columns adds one column per saved column, in order, each with its rows |
| CodecProperties.ReloadedEncodesSame | nPick/production/node_bone_picker.py:262 | loaded columns save exactly as the originals, because only a row's binding is saved |
| CodecProperties.PushDownEncodesSame | nPick/production/node_bone_picker.py:125-153 | pushing the mode or the armature down to the rows does not change what is saved |
| CodecProperties.RenameLayersEncoded | nPick/production/node_object_layer.py:225-226 | loading saved layer names into a table of the same length gives each layer its saved name |
| CodecProperties.RenameLayersSpec | nPick/production/node_object_layer.py:225-226 | renaming succeeds iff the list is no longer than the table and every entry is a string. Then layer i takes the i-th name. Layers past the list keep their names whether or not the load fails. |
| CodecProperties.AsRealsReals | nPick/production/node_object_custom_properties.py:29 | a saved vector loads back as the same vector |
| CodecProperties.PickerTransfer | nPick/production/node_bone_picker.py:270-285 | the picker's own saved fields load back: compact flag, mode, and columns with their rows |
| CodecProperties.LayerTransfer | nPick/production/node_object_layer.py:220-226 | the bone-layer node's own saved fields load back: compact flag, filter and layer names |
| CodecProperties.OtherTransfer | nPick/production/node_bone_custom_properties_bone.py:158-165 | the own fields of the two property nodes and of the frame load back |
| CodecProperties.LoadRestores | nPick/production/node_bone_picker.py:25-35 | loading a saved record onto a node of the same type succeeds. It leaves exactly the saved fields, with the parent taken from the map. |
| CodecProperties.RestoredEncodes | nPick/production/node_object_custom_properties.py:121-137 | a node loaded from a record re-encodes, with the same parent name, to exactly that record |
| CodecProperties.RoundTrip | nPick/production/node_bone_custom_properties_bone.py:147-165 | save after load reproduces the record: the load succeeds, resolves the parent through the map, and the node re-encodes (the encoding `Nodes.Node.Save` writes), with the saved parent name, to the saved record |
| CodecProperties.LoadedParent | nPick/production/node_bone_custom_properties_bone.py:33 | a successful load's parent is none iff the saved `parent` is null or falsy; otherwise it is the map's node for that name. A non-null name missing from the map fails the load. |
| CodecProperties.FrameAsWrittenFailsWithParent | nPick/production/editor_type_operator.py:157 | as written, a frame whose record has a non-null parent never loads |
| CodecProperties.FrameAsWrittenWithoutParent | nPick/production/editor_type_operator.py:152-161 | as written, a frame with a null or missing parent loads as the corrected frame load does |
| CodecProperties.FrameWithParentRoundTrip | nPick/production/editor_type_operator.py:152-161 | a frame saved with a parent fails to load as written, but the corrected load restores it |
| CodecProperties.LoadStepsSized | nPick/production/node_bone_picker.py:29-35 | a load keeps the host's fixed sizes: a two-number location, a three-number colour, 32 layers on a layer node |
| CodecProperties.PrefixLoads | nPick/production/node_bone_picker.py:25-35 | when all lines of a load succeed, so does every run of its first lines |
| CodecProperties.AsWrittenParentFails | nPick/production/editor_type_operator.py:157 | once the lines before the frame's parent line have loaded, a truthy `parent` raises NameError for `nodes` |
| CodecProperties.FrameAsWrittenStopsAtParent | nPick/production/editor_type_operator.py:152-157 | a frame record that the corrected load accepts, with a truthy `parent`, fails as written with NameError for `nodes` |
| Nodes.Node.constructor | nPick/production/editor_type_operator.py:142 | `nodes.new(type)` gives a blank node of that type, initialised |
| Nodes.Node.Init | nPick/production/node_object_layer.py:95-98 | the bone-layer node appends the 32 default layers; other node types are unchanged |
| Nodes.Node.LoadBaseField | nPick/production/node_bone_picker.py:28-35 | one base assignment does what the codec's step does: it misses the key, refuses the value, or assigns the field |
| Nodes.Node.LoadParent | nPick/production/node_bone_picker.py:33 | the parent assignment: none for a falsy value, else the map's node; an unresolvable name fails |
| Nodes.Node.LoadOwnField | nPick/production/node_bone_custom_properties_bone.py:164-165 | one assignment of a type's own plain field does what the codec's step does |
| Nodes.Node.LoadModeSelect | nPick/production/node_bone_picker.py:273 | assigning `mode_select` runs its callback, which pushes the mode down to the existing rows |
| Nodes.Node.LoadPickerColumns | nPick/production/node_bone_picker.py:276-285 | clears the columns, then rebuilds them from the saved list as the codec's step does |
| Nodes.Node.LoadLayerNames | nPick/production/node_object_layer.py:225-226 | renames the layers from the saved list as the codec's step does |
| Nodes.Node.LoadBase | nPick/production/node_bone_picker.py:25-35 | the base `load`: the eight base assignments in order, stopping at the first that fails |
| Nodes.Node.LoadOwnFields | nPick/production/node_object_layer.py:222-226 | a type's own assignments after the base ones, stopping at the first that fails |
| Nodes.Node.Load | nPick/production/node_bone_picker.py:266-285 | the node's state after `load` is the codec's load of its schema. With `RoundTrip`, that restores a saved record. |
| Nodes.Node.LoadFrameAsWritten | nPick/production/editor_type_operator.py:152-161 | the graph's frame branch as written: the codec's load of the as-written frame schema |
| Nodes.Node.ParentName | nPick/production/node_bone_picker.py:19 | the saved parent is none iff the node has no parent, and otherwise the parent's name |
| Nodes.Node.SetModeSelect | nPick/production/node_bone_picker.py:125-128 | the node and all of its rows take the mode; nothing else changes |
| Nodes.Node.SwitchCompact | nPick/production/editor_type_operator.py:29-30 | an nPick node takes the compact flag; frames and reroutes are unchanged |
| Nodes.Node.SwitchPickerMode | nPick/production/editor_type_operator.py:59-60 | a picker takes the mode, pushed down to its rows; other node types are unchanged |
| Nodes.Node.SetArmature | nPick/production/node_object_layer.py:71-79 | a picker binds every row to the armature. A bone-layer node recomputes `has_bone` from the bones, or resets it without an armature. The property nodes only store the armature. |
| Nodes.Node.BindRows | nPick/production/node_bone_picker.py:150-153 | every row of every column is bound to the armature; nothing else changes |
| Nodes.Node.MarkLayers | nPick/production/node_object_layer.py:71-79 | layer i's `has_bone` is whether some bone is on layer i, or true without an armature |
| Nodes.Node.UpdatePicker | nPick/production/node_bone_picker.py:54-70 | the click always resets `picker`. With an armature, a bone name and that bone present, the bones become `Pick` of the target. Otherwise the bones are untouched. |
| Nodes.Node.AddPickerColumn | nPick/production/node_bone_picker.py:296-315 | the columns become `AddColumn` of the old ones, with the node's mode and armature |
| Nodes.Node.RemovePickerColumn | nPick/production/node_bone_picker.py:326-333 | `ok` iff the index is in range; then the columns become `RemoveColumn`, else they are unchanged |
| Nodes.Node.AddPickerRow | nPick/production/node_bone_picker.py:344-358 | `ok` iff the column index is valid; then the columns become `AddRow`, else they are unchanged |
| Nodes.Node.RemovePickerRow | nPick/production/node_bone_picker.py:370-378 | `ok` iff both indices are valid; then the columns become `RemoveRow`, else they are unchanged |
| Nodes.Node.EditPickerRow | nPick/production/node_bone_picker.py:436-446 | `ok` iff both indices are valid; then the columns become `SetRowBinding`, else they are unchanged |
| Nodes.ModeSwitchedTwice | nPick/production/editor_type_operator.py:59-60 | switching to the same picker mode twice is switching once |
| Nodes.Compacted | nPick/production/editor_type_operator.py:29-30 | only a node that has `mode_compact` changes: it takes the mode and keeps its type and every other own field |
| Nodes.ModeSwitched | nPick/production/editor_type_operator.py:59-60 | only a picker changes: it takes the mode, pushed down to its rows (`Grid.WithModeSelect`); it keeps `mode_compact`, the armature and its type |
| Nodes.SelectBone | nPick/production/node_bone_picker.py:64-70 | the deselect loop then the select: the armature's bones become `Pick` of the target |
| Nodes.DrawLabel | nPick/production/node_object_custom_properties.py:118-119 | the Custom Properties label is always `Custom Properties`; the bone node's label is the bare title iff it has no bone name |
| Nodes.BonePropsLabel | nPick/production/node_bone_custom_properties_bone.py:141-145 | two bone-property labels are equal only when the bone names are; every label ends in the type's title and starts with the bone name |
| Nodes.LoadColumnsFrom | nPick/production/node_bone_picker.py:278-280 | the column loop builds what the codec's column load describes, up to and including the first failing column |
| Nodes.LoadColumnFrom | nPick/production/node_bone_picker.py:279-285 | one column's size, then a row per saved row, as the codec's column load describes |
| Graph.Record | nPick/production/editor_type_operator.py:88-106 | a node is saved iff it is an nPick node (it has `save`) or a frame |
| Graph.RecordsSpec | nPick/production/editor_type_operator.py:88-106 | the saved entries are exactly the saved nodes, each under its name holding its record; other nodes are left out |
| Graph.RecordsStep | nPick/production/editor_type_operator.py:91 | with distinct names, each saved node adds one new entry at the end |
| Graph.Records | nPick/production/editor_type_operator.py:88-106 | the document has at most one entry per node of the tree |
| Graph.Saved | nPick/production/editor_type_operator.py:88-93 | the saved nodes are nodes of the tree that have `save` or are frames, one per document entry |
| Graph.SavedEntries | nPick/production/editor_type_operator.py:90-94 | document entry i is saved node i, under its name, holding its record |
| Graph.SavedNames | nPick/production/editor_type_operator.py:91 | distinct node names give distinct document keys |
| Graph.DocumentEntries | nPick/production/editor_type_operator.py:140 | `nodes_data['nodes'].items()` can be read iff the document has a `nodes` object, and they are its members |
| Graph.EntryType | nPick/production/editor_type_operator.py:142 | a node is created for an entry iff it is an object whose `type` is a string naming a known node type; the type is that string |
| Graph.NameMapSpec | nPick/production/editor_type_operator.py:144-146 | `Graph.NameMap`, after n entries, holds their keys, each with the node of the last entry under that key |
| Graph.OwnKeyMapped | nPick/production/editor_type_operator.py:144-150 | an entry's own key is mapped to its own new node before the entry's fields load |
| Graph.ParentMustComeFirst | nPick/production/editor_type_operator.py:140-150 | an entry whose `parent` names no entry up to and including itself fails to load |
| Graph.LoadedEntryParent | nPick/production/editor_type_operator.py:140-150 | a loaded entry's parent is none iff its `parent` is falsy; otherwise it is the node of the last entry so far with that name |
| Graph.ReplayedOutcome | nPick/production/editor_type_operator.py:140-150 | node k of the pass has the host's name and holds entry k's outcome; every node but the last loaded cleanly |
| Graph.ForwardParentStops | nPick/production/editor_type_operator.py:140-150 | a pass that reaches an entry whose parent comes later stops there, with that entry's error |
| Graph.FrameParentStopsAsWritten | nPick/production/editor_type_operator.py:157 | as written, a pass that reaches a frame entry with a truthy `parent` stops there with that entry's error |
| Graph.OutcomeSized | nPick/production/editor_type_operator.py:149-161 | every entry's load outcome keeps the host's fixed sizes of the fresh node |
| Graph.BuiltValid | nPick/production/editor_type_operator.py:142-150 | every node the pass created has the host's name and the host's fixed sizes |
| Graph.WellFormedAppend | nPick/production/editor_type_operator.py:142 | adding nodes with distinct, non-empty host names not yet in the tree keeps the tree's names unique and its nodes sized |
| Graph.LoadedWellFormed | nPick/production/editor_type_operator.py:140-150 | the tree stays well-formed when the nodes a load pass created are added to it |
| Graph.ReplayedCompletes | nPick/production/editor_type_operator.py:140-161 | a pass in which every entry can be created and every outcome is clean reaches the end with no error |
| Graph.ReplayedReaches | nPick/production/editor_type_operator.py:140-161 | a pass in which every entry can be created and the entries before k load cleanly reaches entry k |
| Graph.ReplayedStopsAt | nPick/production/editor_type_operator.py:140-161 | a pass whose outcome at k is an error stops right there, with that error |
| Graph.DistinctKeysMapped | nPick/production/editor_type_operator.py:144-146 | when the keys so far are distinct, each key maps to the node of its own entry |
| Graph.SavedDocumentListed | nPick/production/editor_type_operator.py:84-87 | the load reads back exactly the entries the save wrote under `nodes` |
| Graph.SavedEntryType | nPick/production/editor_type_operator.py:142 | a saved entry asks for a node of its saved node's type |
| Graph.SavedEntryLoads | nPick/production/editor_type_operator.py:149-161 | one saved record loads into a fresh node of its type with no error, and the result re-encodes, with the saved parent name, to the saved record |
| Graph.SavedFrameStops | nPick/production/editor_type_operator.py:157 | as written, a frame saved with a parent fails on its parent line |
| Graph.SavedParentMapped | nPick/production/editor_type_operator.py:144-146 | a saved node's parent name is mapped, when its entry loads, to the node created for the parent's entry |
| Graph.SavedReplayedAt | nPick/production/editor_type_operator.py:140-161 | entry k of a saved document loads cleanly into a node of the saved type that re-encodes, with the saved parent name, to the saved record, linked to the node of the saved parent |
| Graph.TreeRoundTrip | nPick/production/editor_type_operator.py:83-161 | save then load: one new node per saved node, no error, each of the saved type and re-encoding, with the saved parent names, to its saved record, linked exactly as the saved nodes (as written too, when no frame has a parent) |
| Graph.DocumentRoundTrip | nPick/production/editor_type_operator.py:83-161 | `Graph.TreeRoundTrip` on the document and the saved nodes |
| Graph.DocumentLoads | nPick/production/editor_type_operator.py:140-161 | the load of a saved document reaches its end with no error |
| Graph.DocumentRecords | nPick/production/editor_type_operator.py:140-161 | each node loaded from a saved document has the saved type and re-encodes, with the saved parent name, to the saved record |
| Graph.DocumentLinks | nPick/production/editor_type_operator.py:140-157 | the nodes loaded from a saved document are linked exactly as the saved nodes |
| Graph.LinksKept | nPick/production/editor_type_operator.py:144-150 | created nodes linked as the saved nodes entry by entry are linked exactly as the saved nodes |
| Graph.TreeFrameStopsAsWritten | nPick/production/editor_type_operator.py:157 | as written, loading a saved tree stops at the first frame saved with a parent, with NameError for `nodes`, after the entries before it loaded back |
| Graph.DocumentFrameStops | nPick/production/editor_type_operator.py:157 | `Graph.TreeFrameStopsAsWritten` on the document and the saved nodes |
| Graph.SavedFrameStopsAt | nPick/production/editor_type_operator.py:157 | in the as-written pass, the outcome of a frame entry saved with a parent is NameError for `nodes` |
| Graph.SelectedOfSpec | nPick/production/editor_type_operator.py:25 | the selected nodes are exactly the nodes whose select flag is set |
| Graph.NodeTree.SaveNodes | nPick/production/editor_type_operator.py:83-106 | the document is version [0, 0, 1], then the records of the saved nodes in tree order |
| Graph.NodeTree.LoadNodes | nPick/production/editor_type_operator.py:131-161 | an unreadable `nodes` creates nothing. Otherwise the pass is replayed entry by entry into new nodes appended to the tree, stopping at the first failure. The frame branch is the corrected one or, when asked, the one as written. The tree keeps unique names and sized nodes. |
| Graph.NodeTree.SwitchCompactMode | nPick/production/editor_type_operator.py:23-38 | every selected node that has `mode_compact` takes the mode; unselected nodes and the selection are unchanged |
| Graph.NodeTree.SwitchSelectPickerMode | nPick/production/editor_type_operator.py:53-68 | every selected picker takes the mode, pushed down to its rows; unselected nodes and the selection are unchanged |
| Graph.NodeTree.Reselect | nPick/production/editor_type_operator.py:33-37 | deselecting all and reselecting the stored selection leaves every select flag as it was |
| Graph.LoadEntries | nPick/production/editor_type_operator.py:140-161 | the loop over the entries: one node per entry in order, stopping at the first entry that cannot be created or does not load |
| Graph.LoadEntry | nPick/production/editor_type_operator.py:141-150 | one entry: a new node is mapped under the entry's key and loaded; the pass goes on or ends with that error |
| Graph.CreateAndLoad | nPick/production/editor_type_operator.py:142-150 | a new node with the host's name, holding what loading its entry with its own key mapped gives; a reroute has no `load` |
| CustomProps.LexLeTotal | nPick/production/node_bone_custom_properties_bone.py:89 | any two strings are ordered one way or the other |
| CustomProps.LexLeAntisymmetric | nPick/production/node_bone_custom_properties_bone.py:89 | strings ordered both ways are equal |
| CustomProps.LexLeTransitive | nPick/production/node_bone_custom_properties_bone.py:89 | the string order is transitive |
| CustomProps.SortKeys | nPick/production/node_bone_custom_properties_bone.py:88-89 | `keys.sort()` is a permutation of the keys |
| CustomProps.SortKeysSorted | nPick/production/node_bone_custom_properties_bone.py:89 | the sorted keys are in ascending order |
| CustomProps.SortedUnique | nPick/production/node_bone_custom_properties_bone.py:89 | two ascending arrangements of the same keys are equal |
| CustomProps.SortKeysUnique | nPick/production/node_object_custom_properties.py:74-75 | any ascending arrangement of the keys is what `keys.sort()` gives |
| CustomProps.GetBone | nPick/production/node_bone_custom_properties_bone.py:84 | `bones.get(name, False)` is a bone of the armature with that name, and is none iff there is none |
| CustomProps.ListedKeys | nPick/production/node_bone_custom_properties_bone.py:86-98 | keys are listed iff the table is present and not empty, sorted and a permutation of the table's keys; otherwise the notice is shown |
| CustomProps.BonePanel | nPick/production/node_bone_custom_properties_bone.py:83-98 | nothing is drawn without an armature or a bone name. The keys are listed iff the bone exists and has a non-empty table, sorted and a permutation of those keys. Otherwise the notice is shown. |
| CustomProps.ObjectPanel | nPick/production/node_object_custom_properties.py:71-84 | nothing without an armature; with one, the object's keys iff it has a non-empty table, sorted and a permutation; otherwise the notice |
| CustomProps.ListedOrderFree | nPick/production/node_object_custom_properties.py:74-76 | the listed keys do not depend on the order the table holds them in |

## Left out

- Drawing. `draw_buttons`, `draw_buttons_ext` and the popup's `draw` are host UI calls. Only the layer filter, the column-break rule, the layer toggle index and the custom-property listing are modelled.
- File I/O. `open`, `json.dumps` and `json.loads` are left out. The document is a `Json.Value`, with an object as an ordered list of members, and no parsing.
- Host plumbing: registration, keymaps, the pie menu's layout, `poll`, and the node categories.
- The add-on loader and the build script.
- Codec.BlankExt: the node categories in nPick/production/node.py:13 and :17 also list `NodeNPickObjectCustomPropertiesData` and `NodeNPickBoneCustomPropertiesPoseBone`. Their classes are not part of this model, so the model has no extension for them. `nodes.new` of either id gives no node here, and a document holding such an entry stops with `UnknownType`. `Graph.Record` never saves them.
- The experimental texture and render modules. They are foreign side effects and are not registered.
- The re-dispatch in `update_object_armature`, which clears the other selected nodes' flags, calls their callbacks, then reselects them. It depends on the host's selection state. Only the push-down to this node's rows or layers is modelled (`Nodes.Node.SetArmature`).
- The popup operator's `invoke`, which pre-fills the bone name from the active pose bone. The edit itself is modelled with the name as a parameter.
- Host facts are modelled as parameters or constants:
  - node names are `hostName(index)`;
  - a new node's base values are the host's defaults;
  - the default widths are 250 for nPick nodes and 140 otherwise;
  - a frame's defaults are label size 20 and shrink on.
- Codec.AsReals: the host's conversions are modelled as accepting exactly the right JSON kind. An integer is accepted where a float is expected, and a vector must have its exact length. Finer coercions are not modelled, such as a bool accepted as an int or `label_size` clamped to its range.
- Codec.ApplyValue and Nodes.Node.LoadParent: the host's `parent` setter is modelled as a plain store of the resolved node. The real setter accepts only a frame as parent, ignores an assignment that would make a cycle, and re-expresses the node's location relative to the new parent. `CodecProperties.RoundTrip` for the child of a frame therefore holds only under this abstraction.
- Json.Get: it returns the first member with a key, while `json.loads` keeps the last of duplicate keys. `Json.Value` admits objects with duplicate keys, but the save code never produces them: each key is written once.
- Floats are copied `real` values. Float rounding and the `width > 300` comparison on host floats are not modelled beyond exact reals.
- Graph.NodeTree.LoadNodes: the contract does not state that the created nodes are new objects. The loop carries a freshness fact only per node (`Graph.LoadEntry`, `Graph.CreateAndLoad`). The host adds each node to the tree as it creates it. The model appends them after the pass; nothing in the pass reads the tree.
- Graph.LoadEntries: does not state that the created nodes are distinct new objects, for the same reason.
- Graph.NodeTree.LoadNodes: the `asWritten` flag chooses the frame branch. When it is false, frames load with the corrected parent lookup (`Nodes.Node.Load`). When it is true, they load as written (`Nodes.Node.LoadFrameAsWritten`, see Findings).
- Graph.NodeTree.LoadNodes: the host's unique names are a precondition: `hostName` is injective, never empty, and avoids the names already in the tree.
- Graph.NodeTree.SwitchCompactMode: the contract states each node's new type-specific part and select flag. Its frame (`ext` and `select` of the tree's nodes) keeps every other field unchanged. The deselect-all in between is folded into `Graph.NodeTree.Reselect`.
- Graph.NodeTree.SwitchSelectPickerMode: the same as the compact-mode switch.
- Scene: bone selection is a flag on each bone of the armature. Pose bones and data bones are one record.
- CustomProps.SortKeys: `keys.sort()` is an in-place list sort. It is modelled as a pure insertion sort, with uniqueness proved, so any correct sort gives the same list.

Behaviour of the code that the model keeps as written:

- Loading does not restore node names. No `load` assigns `name`, so each loaded node keeps the name the host gave it, and its `parent` is saved under that name. A loaded tree therefore re-saves under the host's names, and equals the saved document only where the host reused the old names.
- Loading is one pass. A parent must be an earlier entry, or the entry itself; there is no second pass that resolves parents.
- Nothing is rolled back when an entry fails. The nodes created before it stay in the tree.
- The version is written but never read. A document without `version` loads like any other.
- Loaded picker rows keep the row default SINGLE. `mode_select` is assigned before the columns are rebuilt, so the new rows do not receive it. Nothing is saved per row for it.

## Findings

| source | as written | input that shows it | evidently intended | confidence | as-written member | corrected member |
|---|---|---|---|---|---|---|
| nPick/production/editor_type_operator.py:157 | the frame branch reads `nodes[...]`, a name that is not defined in `execute`, so any frame with a non-null parent raises NameError | a document holding a frame whose `parent` is the name of an earlier frame | look the parent up in `parent_nodes`, as the other node types do | not executed | Graph.TreeFrameStopsAsWritten | Graph.TreeRoundTrip |
| nPick/production/node_object_layer.py:137 | with the "with bone" filter on, the toggle drawn at position `index` of the filtered list drives armature layer `index` | layer 1 has no bone and layer 2 has one: the one drawn entry is Layer 2, but its toggle drives armature layer 1 | toggle the armature layer at the drawn entry's own table position | not executed | Layers.ToggleMismatchWhenFiltered | Layers.ToggledLayers |

- Frame branch. `Nodes.Node.LoadFrameAsWritten` models the branch as written, on the schema `Codec.FrameSchemaAsWritten`. `CodecProperties.FrameWithParentRoundTrip` proves, for one record, that a frame saved with a parent fails as written, while the corrected load of `Codec.Schema` restores it.
- On a whole tree, `Graph.NodeTree.LoadNodes` takes either branch. As written, loading a saved tree stops at the first frame saved with a parent (`Graph.TreeFrameStopsAsWritten`). With the corrected branch, every saved tree whose parents are saved before their children loads back completely (`Graph.TreeRoundTrip`).
- Layer toggle. `Layers.ToggledLayersAsWritten` is the index the draw code uses. `Layers.ToggledLayers` is the corrected one, proved to point at the drawn layer itself. The same code appears at line 146 for the unfiltered list, where the two agree, and in `draw_buttons_ext` at lines 185 and 194.
