/**
 * The host scene as the picker and the bone-layer node see it: an armature
 * object and its bones, each with a select flag and a mask of the 32 armature
 * layers it lies on.
 */
module Scene {
  import opened Wrappers

  /** Armatures have a fixed number of bone layers. */
  const LayerCount: nat := 32

  type LayerMask = s: seq<bool> | |s| == LayerCount witness seq(LayerCount, _ => false)

  datatype Bone = Bone(name: string, select: bool, layers: LayerMask)

  /** An armature object; its bones are updated in place by the picker. */
  class Armature {
    var bones: seq<Bone>

    constructor (bones: seq<Bone>)
      ensures this.bones == bones
    {
      this.bones := bones;
    }
  }

  /** `pose.bones.get(name)`: the index of the first bone called `name`. */
  function FindBone(bones: seq<Bone>, name: string): (r: Option<nat>)
    ensures r.Some? ==> r.value < |bones| && bones[r.value].name == name
    ensures r.Some? ==> forall k :: 0 <= k < r.value ==> bones[k].name != name
    ensures r.None? <==> forall k :: 0 <= k < |bones| ==> bones[k].name != name
  {
    if bones == [] then None
    else if bones[0].name == name then Some(0)
    else
      match FindBone(bones[1..], name)
      case None => None
      case Some(k) => Some(k + 1)
  }

  /** How a picker click treats the bones other than its target. */
  datatype SelectMode = Multi | Single

  /**
   * The selection a click on bone `t` leaves: in SINGLE mode every other bone
   * is deselected first; in both modes the target is then selected.
   */
  function Pick(bones: seq<Bone>, t: nat, mode: SelectMode): (r: seq<Bone>)
    requires t < |bones|
    ensures |r| == |bones|
    ensures forall k :: 0 <= k < |r| ==> r[k].name == bones[k].name && r[k].layers == bones[k].layers
    ensures r[t].select
    ensures mode == Single ==> forall k :: 0 <= k < |r| ==> (r[k].select <==> k == t)
    ensures mode == Multi ==> forall k :: 0 <= k < |r| && k != t ==> r[k] == bones[k]
  {
    var cleared := if mode == Single then Deselected(bones, t) else bones;
    cleared[t := cleared[t].(select := true)]
  }

  /** Every bone except `t` with its select flag cleared. */
  function Deselected(bones: seq<Bone>, t: nat): (r: seq<Bone>)
    ensures |r| == |bones|
    ensures forall k :: 0 <= k < |r| ==> r[k] == if k == t then bones[k] else bones[k].(select := false)
  {
    seq(|bones|, k requires 0 <= k < |bones| => if k == t then bones[k] else bones[k].(select := false))
  }

  /** The selected bones' indices. */
  function Selected(bones: seq<Bone>): set<nat>
  {
    set k | 0 <= k < |bones| && bones[k].select
  }

  /**
   * Clicking `y` and then `z` in SINGLE mode leaves `z` the only selected bone;
   * in MULTI mode it adds both to whatever was selected.
   */
  lemma {:induction false} TwoClicks(bones: seq<Bone>, y: nat, z: nat)
    requires y < |bones| && z < |bones|
    ensures Selected(Pick(Pick(bones, y, Single), z, Single)) == {z}
    ensures Selected(Pick(Pick(bones, y, Multi), z, Multi)) == Selected(bones) + {y, z}
  {
    var s := Pick(Pick(bones, y, Single), z, Single);
    assert forall k :: k in Selected(s) <==> k == z;
    var m1 := Pick(bones, y, Multi);
    var m := Pick(m1, z, Multi);
    forall k ensures k in Selected(m) <==> k in Selected(bones) + {y, z} {
      if 0 <= k < |bones| && k != y && k != z {
        assert m[k] == m1[k] == bones[k];
      }
    }
  }
}
