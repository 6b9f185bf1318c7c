/**
 * The JSON document as the graph serializer builds it before `json.dumps` and
 * receives it after `json.loads`: values with ordered objects.  Objects keep
 * their members in insertion order, as Python dictionaries do.
 */
module Json {
  import opened Wrappers

  datatype Value =
    | Null
    | Bool(b: bool)
    | Int(i: int)
    | Float(r: real)
    | Str(s: string)
    | List(items: seq<Value>)
    | Object(members: seq<Member>)

  datatype Member = Member(key: string, value: Value)

  /** The keys of an object, in order. */
  function Keys(ms: seq<Member>): (ks: seq<string>)
    ensures |ks| == |ms|
    ensures forall i :: 0 <= i < |ms| ==> ks[i] == ms[i].key
  {
    if ms == [] then [] else [ms[0].key] + Keys(ms[1..])
  }

  /** Python dictionaries never hold a key twice. */
  predicate DistinctKeys(ms: seq<Member>)
  {
    forall i, j :: 0 <= i < j < |ms| ==> ms[i].key != ms[j].key
  }

  /** The position of the first member named `key`, or `|ms|` when there is none. */
  function Find(ms: seq<Member>, key: string): (i: nat)
    ensures i <= |ms|
    ensures i < |ms| ==> ms[i].key == key
    ensures forall j :: 0 <= j < i ==> ms[j].key != key
  {
    if ms == [] then 0
    else if ms[0].key == key then 0
    else
      var i := Find(ms[1..], key);
      assert forall j :: 1 <= j < i + 1 ==> ms[j].key == ms[1..][j - 1].key;
      i + 1
  }

  /** `d.get(key)`: the value of the first member named `key`, if any. */
  function Get(ms: seq<Member>, key: string): (r: Option<Value>)
    ensures r.None? <==> forall i :: 0 <= i < |ms| ==> ms[i].key != key
    ensures r.Some? ==> Find(ms, key) < |ms| && ms[Find(ms, key)] == Member(key, r.value)
  {
    var i := Find(ms, key);
    if i < |ms| then Some(ms[i].value) else None
  }

  /**
   * `d[key] = v`: the first member named `key` keeps its position and takes the
   * new value; a key not yet present is appended at the end.
   */
  function Put(ms: seq<Member>, key: string, v: Value): (r: seq<Member>)
    ensures (forall i :: 0 <= i < |ms| ==> ms[i].key != key) ==> r == ms + [Member(key, v)]
    ensures forall i :: 0 <= i < |ms| && ms[i].key == key && (forall j :: 0 <= j < i ==> ms[j].key != key)
              ==> r == ms[i := Member(key, v)]
  {
    if ms == [] then [Member(key, v)]
    else if ms[0].key == key then [Member(key, v)] + ms[1..]
    else
      var rest := Put(ms[1..], key, v);
      assert (forall i :: 0 <= i < |ms| ==> ms[i].key != key) ==> rest == ms[1..] + [Member(key, v)] by {
        if forall i :: 0 <= i < |ms| ==> ms[i].key != key {
          assert forall i :: 0 <= i < |ms[1..]| ==> ms[1..][i].key != key by {
            forall i | 0 <= i < |ms[1..]| ensures ms[1..][i].key != key { assert ms[1..][i] == ms[i + 1]; }
          }
        }
      }
      assert [ms[0]] + ms[1..] == ms;
      assert forall i :: 0 <= i < |ms| && ms[i].key == key && (forall j :: 0 <= j < i ==> ms[j].key != key)
               ==> [ms[0]] + rest == ms[i := Member(key, v)] by {
        forall i | 0 <= i < |ms| && ms[i].key == key && (forall j :: 0 <= j < i ==> ms[j].key != key)
          ensures [ms[0]] + rest == ms[i := Member(key, v)]
        {
          assert i > 0;
          assert ms[1..][i - 1] == ms[i];
          assert forall j :: 0 <= j < i - 1 ==> ms[1..][j].key != key by {
            forall j | 0 <= j < i - 1 ensures ms[1..][j].key != key { assert ms[1..][j] == ms[j + 1]; }
          }
          assert rest == ms[1..][i - 1 := Member(key, v)];
        }
      }
      [ms[0]] + rest
  }

  /** Python truthiness, as used by `x if d['parent'] else None`. */
  predicate Truthy(v: Value)
  {
    match v
    case Null => false
    case Bool(b) => b
    case Int(i) => i != 0
    case Float(r) => r != 0.0
    case Str(s) => s != ""
    case List(items) => items != []
    case Object(members) => members != []
  }

  /**
   * What a `for x in v` loop visits: the items of a list, the characters of a
   * string (each as a one-character string) or the keys of an object; None when
   * the value is not iterable (a TypeError in Python).
   */
  function Iterate(v: Value): (r: Option<seq<Value>>)
    ensures v.List? ==> r == Some(v.items)
    ensures v.Str? ==> r.Some? && |r.value| == |v.s| && forall i :: 0 <= i < |v.s| ==> r.value[i] == Str([v.s[i]])
    ensures v.Object? ==> r.Some? && |r.value| == |v.members| && forall i :: 0 <= i < |v.members| ==> r.value[i] == Str(v.members[i].key)
    ensures (v.Null? || v.Bool? || v.Int? || v.Float?) <==> r.None?
  {
    match v
    case List(items) => Some(items)
    case Str(s) => Some(seq(|s|, i requires 0 <= i < |s| => Str([s[i]])))
    case Object(members) => Some(seq(|members|, i requires 0 <= i < |members| => Str(members[i].key)))
    case _ => None
  }
}
