/**
 * The bone-layer node's table: one entry per armature layer, its editable
 * name and whether any bone lies on it, with the "layers with bones" filter and
 * the rule that splits the drawn table into columns.
 */
module Layers {
  import opened Scene

  /** One entry of the node's layer collection (`dummy_boolean` is drawing state only). */
  datatype BoneLayer = BoneLayer(name: string, hasBone: bool)

  /** `str(n)` for a natural number. */
  function DecimalString(n: nat): (r: string)
    ensures |r| >= 1
    ensures n >= 10 ==> |r| >= 2
    ensures forall k :: 0 <= k < |r| ==> '0' <= r[k] <= '9'
    decreases n
  {
    if n < 10 then [Digit(n)] else DecimalString(n / 10) + [Digit(n % 10)]
  }

  function Digit(d: nat): (c: char)
    requires d < 10
    ensures '0' <= c <= '9'
  {
    "0123456789"[d]
  }

  /** Different numbers print differently. */
  lemma {:induction false} DecimalInjective(a: nat, b: nat)
    requires DecimalString(a) == DecimalString(b)
    ensures a == b
    decreases a
  {
    var s := DecimalString(a);
    assert "0123456789"[a % 10] == s[|s| - 1] == "0123456789"[b % 10];
    assert a % 10 == b % 10;
    if a >= 10 && b >= 10 {
      assert DecimalString(a / 10) == s[..|s| - 1] == DecimalString(b / 10);
      DecimalInjective(a / 10, b / 10);
    }
  }

  /** The name `init` gives the layer at index `i`. */
  function LayerName(i: nat): string
  {
    "Layer " + DecimalString(i + 1)
  }

  /** The collection `init` builds: `Layer 1` ... `Layer 32`, each marked as having bones. */
  function DefaultLayers(): (r: seq<BoneLayer>)
    ensures |r| == LayerCount
    ensures forall i :: 0 <= i < |r| ==> r[i] == BoneLayer(LayerName(i), true)
  {
    seq(LayerCount, i requires 0 <= i < LayerCount => BoneLayer(LayerName(i), true))
  }

  /** The default names run from `Layer 1` to `Layer 32` and never repeat. */
  lemma DefaultLayerNames()
    ensures DefaultLayers()[0].name == "Layer 1"
    ensures DefaultLayers()[LayerCount - 1].name == "Layer 32"
    ensures forall i, j :: 0 <= i < j < LayerCount ==> DefaultLayers()[i].name != DefaultLayers()[j].name
  {
    assert DecimalString(1) == "1";
    assert DecimalString(32) == DecimalString(3) + [Digit(2)] == "32";
    forall i, j | 0 <= i < j < LayerCount ensures DefaultLayers()[i].name != DefaultLayers()[j].name {
      if DefaultLayers()[i].name == DefaultLayers()[j].name {
        var p := "Layer ";
        assert DecimalString(i + 1) == LayerName(i)[|p|..] == LayerName(j)[|p|..] == DecimalString(j + 1);
        DecimalInjective(i + 1, j + 1);
      }
    }
  }

  /** `any([bone.layers[index] for bone in bones])` */
  function AnyOnLayer(bones: seq<Bone>, index: nat): (r: bool)
    requires index < LayerCount
    ensures r <==> exists k :: 0 <= k < |bones| && bones[k].layers[index]
  {
    if bones == [] then false
    else
      var rest := AnyOnLayer(bones[1..], index);
      assert rest <==> exists k :: 1 <= k < |bones| && bones[k].layers[index] by {
        if rest {
          var k :| 0 <= k < |bones[1..]| && bones[1..][k].layers[index];
          assert bones[k + 1] == bones[1..][k];
        }
        if exists k :: 1 <= k < |bones| && bones[k].layers[index] {
          var k :| 1 <= k < |bones| && bones[k].layers[index];
          assert bones[1..][k - 1] == bones[k];
        }
      }
      bones[0].layers[index] || rest
  }

  /**
   * The `has_bone` flags `update_object_armature` computes: with an armature,
   * layer i has bones iff some bone lies on layer i; without one, every layer
   * is marked as having bones.  Names are kept.
   */
  function WithHasBone(layers: seq<BoneLayer>, bones: seq<Bone>): (r: seq<BoneLayer>)
    requires |layers| <= LayerCount
    ensures |r| == |layers|
    ensures forall i :: 0 <= i < |r| ==> r[i].name == layers[i].name
    ensures forall i :: 0 <= i < |r| ==> (r[i].hasBone <==> exists k :: 0 <= k < |bones| && bones[k].layers[i])
  {
    seq(|layers|, i requires 0 <= i < |layers| => layers[i].(hasBone := AnyOnLayer(bones, i)))
  }

  function AllHaveBone(layers: seq<BoneLayer>): (r: seq<BoneLayer>)
    ensures |r| == |layers|
    ensures forall i :: 0 <= i < |r| ==> r[i] == layers[i].(hasBone := true)
  {
    seq(|layers|, i requires 0 <= i < |layers| => layers[i].(hasBone := true))
  }

  /** The filter comprehension: the layers whose `has_bone` is set, in collection order. */
  function WithBone(layers: seq<BoneLayer>): (r: seq<BoneLayer>)
    ensures |r| <= |layers|
    ensures forall x :: x in r <==> x in layers && x.hasBone
  {
    if layers == [] then []
    else
      var rest := WithBone(layers[1..]);
      assert forall x :: x in layers <==> x == layers[0] || x in layers[1..];
      if layers[0].hasBone then [layers[0]] + rest else rest
  }

  /** Filtering respects order: it filters each part of the collection separately. */
  lemma {:induction false} WithBoneAppend(a: seq<BoneLayer>, b: seq<BoneLayer>)
    ensures WithBone(a + b) == WithBone(a) + WithBone(b)
  {
    if a == [] {
      assert a + b == b;
    } else {
      assert (a + b)[1..] == a[1..] + b;
      WithBoneAppend(a[1..], b);
    }
  }

  /** Filtering twice is filtering once; a collection where every layer has bones is kept whole. */
  lemma {:induction false} WithBoneIdempotent(layers: seq<BoneLayer>)
    ensures WithBone(WithBone(layers)) == WithBone(layers)
    ensures (forall i :: 0 <= i < |layers| ==> layers[i].hasBone) ==> WithBone(layers) == layers
  {
    if layers != [] {
      WithBoneIdempotent(layers[1..]);
      if layers[0].hasBone {
        assert WithBone(layers) == [layers[0]] + WithBone(layers[1..]);
        assert WithBone(WithBone(layers)) == [layers[0]] + WithBone(WithBone(layers[1..])) by {
          assert ([layers[0]] + WithBone(layers[1..]))[1..] == WithBone(layers[1..]);
        }
      }
      if forall i :: 0 <= i < |layers| ==> layers[i].hasBone {
        assert forall i :: 0 <= i < |layers[1..]| ==> layers[1..][i].hasBone by {
          forall i | 0 <= i < |layers[1..]| ensures layers[1..][i].hasBone { assert layers[1..][i] == layers[i + 1]; }
        }
      }
    }
  }

  /** The layers `draw_buttons` lists: filtered when `layer_with_bone` is on. */
  function Shown(layers: seq<BoneLayer>, layerWithBone: bool): (r: seq<BoneLayer>)
    ensures !layerWithBone ==> r == layers
    ensures layerWithBone ==> forall x :: x in r <==> x in layers && x.hasBone
  {
    if layerWithBone then WithBone(layers) else layers
  }

  /**
   * Whether the drawn layer at display position `index` starts a new column:
   * at 8, 16 and 24 on a node wider than 500, at 16 on one wider than 300.
   */
  predicate ColumnBreak(width: real, index: int)
  {
    width > 300.0 && index in (if width > 500.0 then [8, 16, 24] else [16])
  }

  /** The positions among `count` drawn layers where a new column starts. */
  function Breaks(width: real, count: nat): set<nat>
  {
    set i: nat | i < count && ColumnBreak(width, i)
  }

  /** The three layouts of a full 32-layer table. */
  lemma BreaksOfFullTable(width: real)
    ensures width > 500.0 ==> Breaks(width, LayerCount) == {8, 16, 24}
    ensures 300.0 < width <= 500.0 ==> Breaks(width, LayerCount) == {16}
    ensures width <= 300.0 ==> Breaks(width, LayerCount) == {}
  {
    if width > 500.0 {
      assert forall i: nat :: i in Breaks(width, LayerCount) <==> i in {8, 16, 24};
    } else if width > 300.0 {
      assert forall i: nat :: i in Breaks(width, LayerCount) <==> i == 16;
    }
  }

  /**
   * As written, a drawn entry toggles the armature layer at its display
   * position (`layers[index]` with `index` from `enumerate` over the shown list).
   */
  function ToggledLayersAsWritten(layers: seq<BoneLayer>, layerWithBone: bool): (r: seq<nat>)
    ensures |r| == |Shown(layers, layerWithBone)|
    ensures forall k :: 0 <= k < |r| ==> r[k] == k
  {
    seq(|Shown(layers, layerWithBone)|, k requires 0 <= k < |Shown(layers, layerWithBone)| => k)
  }

  /**
   * With the filter on and Layer 1 empty, the first drawn entry is Layer 2
   * but its toggle drives armature layer 1.
   */
  lemma ToggleMismatchWhenFiltered()
    ensures var layers := [BoneLayer("Layer 1", false), BoneLayer("Layer 2", true)];
            && Shown(layers, true) == [layers[1]]
            && ToggledLayersAsWritten(layers, true) == [0]
            && layers[ToggledLayersAsWritten(layers, true)[0]] != Shown(layers, true)[0]
  {
    var layers := [BoneLayer("Layer 1", false), BoneLayer("Layer 2", true)];
    assert WithBone(layers[1..]) == [layers[1]] by {
      assert layers[1..][1..] == [];
    }
  }

  /** The collection indices of the shown layers, in display order. */
  function ShownIndices(layers: seq<BoneLayer>, layerWithBone: bool, from: nat): (r: seq<nat>)
    requires from <= |layers|
    ensures forall k :: 0 <= k < |r| ==> from <= r[k] < |layers|
    ensures forall k, l :: 0 <= k < l < |r| ==> r[k] < r[l]
    ensures Shown(layers[from..], layerWithBone) == seq(|r|, k requires 0 <= k < |r| => layers[r[k]])
    decreases |layers| - from
  {
    if from == |layers| then []
    else
      var rest := ShownIndices(layers, layerWithBone, from + 1);
      assert layers[from..][1..] == layers[from + 1..];
      if !layerWithBone || layers[from].hasBone then [from] + rest else rest
  }

  /**
   * The toggle indices the drawing evidently intends: each drawn entry drives the
   * armature layer of its own collection index.
   */
  function ToggledLayers(layers: seq<BoneLayer>, layerWithBone: bool): (r: seq<nat>)
    ensures |r| == |Shown(layers, layerWithBone)|
    ensures forall k :: 0 <= k < |r| ==> r[k] < |layers| && layers[r[k]] == Shown(layers, layerWithBone)[k]
    ensures forall k, l :: 0 <= k < l < |r| ==> r[k] < r[l]
  {
    assert layers[0..] == layers;
    ShownIndices(layers, layerWithBone, 0)
  }
}
