/**
 * The custom-properties panels of the two property nodes: which keys of an
 * ID block's `_RNA_UI` table they list, and in which order (`keys.sort()`:
 * Python's ordering of strings, code point by code point).
 */
module CustomProps {
  import opened Wrappers

  // Python's string ordering.

  /** `a <= b` on Python strings: code-point lexicographic order, a prefix first. */
  predicate LexLe(a: string, b: string)
    decreases |a|
  {
    if a == [] then true
    else if b == [] then false
    else if a[0] != b[0] then a[0] < b[0]
    else LexLe(a[1..], b[1..])
  }

  lemma {:induction false} LexLeTotal(a: string, b: string)
    ensures LexLe(a, b) || LexLe(b, a)
    decreases |a|
  {
    if a != [] && b != [] && a[0] == b[0] {
      LexLeTotal(a[1..], b[1..]);
    }
  }

  lemma {:induction false} LexLeReflexive(a: string)
    ensures LexLe(a, a)
    decreases |a|
  {
    if a != [] {
      LexLeReflexive(a[1..]);
    }
  }

  lemma {:induction false} LexLeAntisymmetric(a: string, b: string)
    requires LexLe(a, b) && LexLe(b, a)
    ensures a == b
    decreases |a|
  {
    if a != [] && b != [] {
      LexLeAntisymmetric(a[1..], b[1..]);
      assert a == [a[0]] + a[1..] && b == [b[0]] + b[1..];
    }
  }

  lemma {:induction false} LexLeTransitive(a: string, b: string, c: string)
    requires LexLe(a, b) && LexLe(b, c)
    ensures LexLe(a, c)
    decreases |a|
  {
    if a != [] && b != [] && c != [] && a[0] == b[0] && b[0] == c[0] {
      LexLeTransitive(a[1..], b[1..], c[1..]);
    }
  }

  // Sorting.

  predicate Sorted(s: seq<string>)
  {
    forall i, j :: 0 <= i < j < |s| ==> LexLe(s[i], s[j])
  }

  /** Insert `x` in front of the first element it does not follow. */
  function Insert(x: string, s: seq<string>): (r: seq<string>)
    ensures multiset(r) == multiset(s) + multiset{x}
  {
    if s == [] || LexLe(x, s[0]) then [x] + s
    else
      assert s == [s[0]] + s[1..];
      [s[0]] + Insert(x, s[1..])
  }

  lemma {:induction false} InsertSorted(x: string, s: seq<string>)
    requires Sorted(s)
    ensures Sorted(Insert(x, s))
  {
    var r := Insert(x, s);
    if s == [] || LexLe(x, s[0]) {
      forall i, j | 0 <= i < j < |r| ensures LexLe(r[i], r[j]) {
        if i == 0 && j > 1 {
          LexLeTransitive(x, s[0], s[j - 1]);
        }
      }
    } else {
      LexLeTotal(x, s[0]);
      InsertSorted(x, s[1..]);
      var rest := Insert(x, s[1..]);
      assert r == [s[0]] + rest;
      forall j | 0 <= j < |rest| ensures LexLe(s[0], rest[j]) {
        assert rest[j] in multiset(rest);
        if rest[j] != x {
          assert rest[j] in multiset(s[1..]);
          var m :| 0 <= m < |s[1..]| && s[1..][m] == rest[j];
          assert s[m + 1] == rest[j];
        }
      }
      forall i, j | 0 <= i < j < |r| ensures LexLe(r[i], r[j]) {
        if i > 0 {
          assert r[i] == rest[i - 1] && r[j] == rest[j - 1];
        } else {
          assert r[j] == rest[j - 1];
        }
      }
    }
  }

  /** `keys.sort()`: the keys in ascending order. */
  function SortKeys(s: seq<string>): (r: seq<string>)
    ensures multiset(r) == multiset(s)
  {
    if s == [] then []
    else
      assert s == [s[0]] + s[1..];
      Insert(s[0], SortKeys(s[1..]))
  }

  /** The sorted keys are in ascending order. */
  lemma {:induction false} SortKeysSorted(s: seq<string>)
    ensures Sorted(SortKeys(s))
  {
    if s != [] {
      SortKeysSorted(s[1..]);
      InsertSorted(s[0], SortKeys(s[1..]));
    }
  }

  lemma SortedTail(a: seq<string>)
    requires a != [] && Sorted(a)
    ensures Sorted(a[1..])
  {
    forall i, j | 0 <= i < j < |a| - 1 ensures LexLe(a[1..][i], a[1..][j]) {
      assert a[1..][i] == a[i + 1] && a[1..][j] == a[j + 1];
    }
  }

  /** Two ascending arrangements of the same keys start with the same key. */
  lemma SortedHead(a: seq<string>, b: seq<string>)
    requires a != [] && Sorted(a) && Sorted(b) && multiset(a) == multiset(b)
    ensures b != [] && a[0] == b[0]
  {
    assert a[0] in multiset(b);
    assert b[0] in multiset(a);
    var i :| 0 <= i < |b| && b[i] == a[0];
    var j :| 0 <= j < |a| && a[j] == b[0];
    LexLeReflexive(a[0]);
    assert LexLe(a[0], a[j]);
    assert LexLe(b[0], b[i]);
    LexLeAntisymmetric(a[0], b[0]);
  }

  /** An ascending arrangement of a list of keys is unique: any other one is `SortKeys`. */
  lemma {:induction false} SortedUnique(a: seq<string>, b: seq<string>)
    requires Sorted(a) && Sorted(b) && multiset(a) == multiset(b)
    ensures a == b
  {
    if a != [] {
      SortedHead(a, b);
      SortedTail(a);
      SortedTail(b);
      assert multiset(a[1..]) == multiset(b[1..]) by {
        assert a == [a[0]] + a[1..] && b == [b[0]] + b[1..];
        assert multiset(a) == multiset{a[0]} + multiset(a[1..]);
        assert multiset(b) == multiset{a[0]} + multiset(b[1..]);
        assert multiset(a[1..]) == multiset(a) - multiset{a[0]};
      }
      SortedUnique(a[1..], b[1..]);
    } else {
      assert |b| == |multiset(b)| == 0;
    }
  }

  /** What `keys.sort()` leaves is the one ascending arrangement of the keys. */
  lemma SortKeysUnique(s: seq<string>, t: seq<string>)
    requires Sorted(t) && multiset(t) == multiset(s)
    ensures SortKeys(s) == t
  {
    SortKeysSorted(s);
    SortedUnique(SortKeys(s), t);
  }

  // The panels.

  /** What a property node draws below its own fields. */
  datatype Panel =
    | Nothing                  // no armature (or, for the bone node, no bone name)
    | NoProperties             // "... Does Not Have Any Custom Properties"
    | Listed(keys: seq<string>) // one row per key, in this order

  /** A bone of `object_armature.data.bones` with the keys of its `_RNA_UI` table, if it has one. */
  datatype DataBone = DataBone(name: string, rnaUi: Option<seq<string>>)

  /** `bones.get(name, False)`: the bone called `name`, or none. */
  function GetBone(bones: seq<DataBone>, name: string): (r: Option<DataBone>)
    ensures r.Some? ==> r.value in bones && r.value.name == name
    ensures r.None? <==> forall k :: 0 <= k < |bones| ==> bones[k].name != name
  {
    if bones == [] then None
    else if bones[0].name == name then Some(bones[0])
    else GetBone(bones[1..], name)
  }

  /** `x.get('_RNA_UI', False)` is truthy exactly for a table that is present and not empty. */
  function ListedKeys(rnaUi: Option<seq<string>>): (p: Panel)
    ensures p.Listed? <==> rnaUi.Some? && rnaUi.value != []
    ensures p.Listed? ==> Sorted(p.keys) && multiset(p.keys) == multiset(rnaUi.value)
    ensures !p.Listed? ==> p == NoProperties
  {
    if rnaUi.Some? && rnaUi.value != [] then
      SortKeysSorted(rnaUi.value);
      Listed(SortKeys(rnaUi.value))
    else NoProperties
  }

  /**
   * The Custom Properties (Bone) panel: with an armature and a bone name,
   * the sorted keys of that bone's table, or the notice when the bone is
   * missing or has no table.
   */
  function BonePanel(hasArmature: bool, bones: seq<DataBone>, boneName: string): (p: Panel)
    ensures p.Nothing? <==> !hasArmature || boneName == ""
    ensures p.Listed? <==> hasArmature && boneName != "" && GetBone(bones, boneName).Some?
                           && GetBone(bones, boneName).value.rnaUi.Some? && GetBone(bones, boneName).value.rnaUi.value != []
    ensures p.Listed? ==> Sorted(p.keys) && multiset(p.keys) == multiset(GetBone(bones, boneName).value.rnaUi.value)
  {
    if !hasArmature || boneName == "" then Nothing
    else
      match GetBone(bones, boneName)
      case None => NoProperties
      case Some(b) => ListedKeys(b.rnaUi)
  }

  /**
   * The Custom Properties panel: with an armature, the sorted keys of the
   * armature object's own table, or the notice when it has none.
   */
  function ObjectPanel(hasArmature: bool, rnaUi: Option<seq<string>>): (p: Panel)
    ensures p.Nothing? <==> !hasArmature
    ensures p.Listed? <==> hasArmature && rnaUi.Some? && rnaUi.value != []
    ensures p.Listed? ==> Sorted(p.keys) && multiset(p.keys) == multiset(rnaUi.value)
  {
    if !hasArmature then Nothing else ListedKeys(rnaUi)
  }

  /** The listed keys do not depend on the order the table holds them in. */
  lemma ListedOrderFree(a: seq<string>, b: seq<string>)
    requires a != [] && multiset(a) == multiset(b)
    ensures ObjectPanel(true, Some(a)) == ObjectPanel(true, Some(b))
  {
    assert |b| == |multiset(b)| == |multiset(a)| == |a|;
    SortKeysSorted(b);
    SortKeysUnique(a, SortKeys(b));
  }
}
