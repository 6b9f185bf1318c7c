/**
 * The node tree and the operators that work on all of it: saving the tree to
 * a document, loading a document into the tree, and the pie-menu switches
 * that change a field on every selected node.
 */
module Graph {
  import opened Wrappers
  import opened Json
  import opened Scene
  import opened Grid
  import opened Codec
  import opened CodecProperties
  import opened Nodes

  /** The format version every saved document carries. */
  const Version: Value := List([Int(0), Int(0), Int(1)])

  /** The saved document: the version, then one entry per saved node. */
  function Document(entries: seq<Member>): Value
  {
    Object([Member("version", Version), Member("nodes", Object(entries))])
  }

  // Saving.

  /**
   * What the save operator stores for one node: the node's own `save()` for
   * the nPick node types, the inline record for a frame, nothing otherwise.
   */
  function Record(n: Node): (r: Option<Value>)
    reads n, n.parent
    ensures r.Some? <==> HasSave(n.ext) || n.ext.FrameExt?
  {
    if HasSave(n.ext) || n.ext.FrameExt? then Some(n.Save()) else None
  }

  /** The entries the save operator builds, node by node, for the saved nodes of `ns`. */
  function Records(ns: seq<Node>): (ms: seq<Member>)
    reads set n | n in ns, set n | n in ns && n.parent != null :: n.parent
    ensures |ms| <= |ns|
  {
    if ns == [] then []
    else
      var rest := Records(ns[..|ns| - 1]);
      var n := ns[|ns| - 1];
      match Record(n)
      case None => rest
      case Some(r) => rest + [Member(n.name, r)]
  }

  /**
   * The entries are exactly the saved nodes: each under its node's name,
   * holding that node's record; nodes that are neither nPick nodes nor
   * frames are left out.
   */
  lemma {:induction false} RecordsSpec(ns: seq<Node>)
    ensures forall m :: m in Records(ns) <==> exists n :: n in ns && Record(n).Some? && m == Member(n.name, Record(n).value)
  {
    if ns != [] {
      var front := ns[..|ns| - 1];
      RecordsSpec(front);
      assert ns == front + [ns[|ns| - 1]];
      forall m ensures m in Records(ns) <==> exists n :: n in ns && Record(n).Some? && m == Member(n.name, Record(n).value) {
        if m in Records(ns) && m !in Records(front) {
          assert m == Member(ns[|ns| - 1].name, Record(ns[|ns| - 1]).value);
        }
        if exists n :: n in ns && Record(n).Some? && m == Member(n.name, Record(n).value) {
          var n :| n in ns && Record(n).Some? && m == Member(n.name, Record(n).value);
          if n != ns[|ns| - 1] {
            assert n in front;
          }
        }
      }
    }
  }

  /** A name that no node of `ns` has is the key of no entry. */
  lemma {:induction false} RecordsAvoid(ns: seq<Node>, name: string)
    requires forall k :: 0 <= k < |ns| ==> ns[k].name != name
    ensures forall i :: 0 <= i < |Records(ns)| ==> Records(ns)[i].key != name
  {
    if ns != [] {
      var front := ns[..|ns| - 1];
      assert forall k :: 0 <= k < |front| ==> front[k] == ns[k];
      RecordsAvoid(front, name);
    }
  }

  /**
   * One step of the save loop: with names kept distinct, the next saved node
   * is added as a new entry at the end, which is what `Put` does for a key not
   * yet present.
   */
  lemma RecordsStep(ns: seq<Node>, i: nat)
    requires i < |ns|
    requires forall a, b :: 0 <= a < b < |ns| ==> ns[a].name != ns[b].name
    ensures Record(ns[i]).None? ==> Records(ns[..i + 1]) == Records(ns[..i])
    ensures Record(ns[i]).Some? ==> Records(ns[..i + 1]) == Put(Records(ns[..i]), ns[i].name, ns[i].Save())
  {
    var front := ns[..i];
    assert ns[..i + 1][..i] == front;
    assert forall k :: 0 <= k < |front| ==> front[k].name != ns[i].name;
    RecordsAvoid(front, ns[i].name);
  }

  /**
   * The nodes the save operator writes an entry for, in tree order: entry i
   * of `Records` is node i of `Saved` under its name, holding its record.
   */
  function Saved(ns: seq<Node>): (r: seq<Node>)
    reads set n | n in ns, set n | n in ns && n.parent != null :: n.parent
    ensures forall n :: n in r ==> n in ns && (HasSave(n.ext) || n.ext.FrameExt?)
    ensures |r| == |Records(ns)|
  {
    if ns == [] then []
    else
      var rest := Saved(ns[..|ns| - 1]);
      var n := ns[|ns| - 1];
      if HasSave(n.ext) || n.ext.FrameExt? then rest + [n] else rest
  }

  /** Entry i of the document is saved node i under its name, holding its record. */
  lemma {:induction false} SavedEntries(ns: seq<Node>)
    ensures forall i :: 0 <= i < |Records(ns)| ==> Records(ns)[i] == Member(Saved(ns)[i].name, Saved(ns)[i].Save())
  {
    if ns != [] {
      SavedEntries(ns[..|ns| - 1]);
    }
  }

  /** Distinct names in the tree give distinct names, hence distinct keys, in the document. */
  lemma {:induction false} SavedNames(ns: seq<Node>)
    requires forall i, j :: 0 <= i < j < |ns| ==> ns[i].name != ns[j].name
    ensures forall a, b :: 0 <= a < b < |Saved(ns)| ==> Saved(ns)[a].name != Saved(ns)[b].name
  {
    if ns != [] {
      var front := ns[..|ns| - 1];
      var last := ns[|ns| - 1];
      assert forall i :: 0 <= i < |front| ==> front[i] == ns[i];
      SavedNames(front);
      forall x | x in Saved(front) ensures x.name != last.name {
        var i :| 0 <= i < |front| && front[i] == x;
        assert ns[i] == x;
      }
    }
  }

  // Loading.

  /** `nodes_data['nodes'].items()`, or why it cannot be read. */
  datatype Entries = Listed(entries: seq<Member>) | Unlisted(e: LoadError)

  function DocumentEntries(doc: Value): (r: Entries)
    ensures r.Listed? <==> doc.Object? && Get(doc.members, "nodes").Some? && Get(doc.members, "nodes").value.Object?
    ensures r.Listed? ==> r.entries == Get(doc.members, "nodes").value.members
  {
    match Field(doc, "nodes")
    case Failed(e) => Unlisted(e)
    case Found(v) => if v.Object? then Listed(v.members) else Unlisted(WrongType("nodes"))
  }

  /** `nodes.new(node_data['type'])`: the type an entry asks for, or why no node is created. */
  datatype Creation = Creatable(typeId: string) | Refused(e: LoadError)

  function EntryType(data: Value): (r: Creation)
    ensures r.Creatable? <==> data.Object? && Get(data.members, "type").Some?
                              && Get(data.members, "type").value.Str? && BlankExt(Get(data.members, "type").value.s).Some?
    ensures r.Creatable? ==> r.typeId == Get(data.members, "type").value.s
  {
    match Field(data, "type")
    case Failed(e) => Refused(e)
    case Found(t) =>
      if !t.Str? then Refused(WrongType("type"))
      else if BlankExt(t.s).None? then Refused(UnknownType(t.s))
      else Creatable(t.s)
  }

  /** The keys of the first `n` entries. */
  function KeysBefore(es: seq<Member>, n: nat): set<string>
    requires n <= |es|
  {
    set i | 0 <= i < n :: es[i].key
  }

  /** The last of the first `n` entries filed under `key`. */
  function LastBefore(es: seq<Member>, key: string, n: nat): (i: nat)
    requires n <= |es| && key in KeysBefore(es, n)
    ensures i < n && es[i].key == key && forall j :: i < j < n ==> es[j].key != key
  {
    if es[n - 1].key == key then n - 1 else LastBefore(es, key, n - 1)
  }

  /**
   * The name map after the first `n` entries, as `parent_nodes[node_name] =
   * ...` builds it: key by key, a later entry under a key replacing an
   * earlier one.
   */
  function NameMap(es: seq<Member>, ns: seq<Node>, n: nat): (m: map<string, Node>)
    requires n <= |es| && n <= |ns|
  {
    if n == 0 then map[] else NameMap(es, ns, n - 1)[es[n - 1].key := ns[n - 1]]
  }

  /** The map holds the keys of the first `n` entries, each with the node of its last entry. */
  lemma {:induction false} NameMapSpec(es: seq<Member>, ns: seq<Node>, n: nat)
    requires n <= |es| && n <= |ns|
    ensures NameMap(es, ns, n).Keys == KeysBefore(es, n)
    ensures forall k :: k in KeysBefore(es, n) ==> NameMap(es, ns, n)[k] == ns[LastBefore(es, k, n)]
  {
    if n > 0 {
      NameMapSpec(es, ns, n - 1);
      KeysBeforeNext(es, n - 1);
      forall k | k in KeysBefore(es, n) ensures NameMap(es, ns, n)[k] == ns[LastBefore(es, k, n)] {
        var m := NameMap(es, ns, n - 1);
        if k == es[n - 1].key {
          assert LastBefore(es, k, n) == n - 1;
        } else {
          assert k in KeysBefore(es, n - 1);
          assert NameMap(es, ns, n)[k] == m[k];
          assert LastBefore(es, k, n) == LastBefore(es, k, n - 1);
        }
      }
    }
  }

  lemma KeysBeforeNext(es: seq<Member>, n: nat)
    requires n < |es|
    ensures KeysBefore(es, n + 1) == KeysBefore(es, n) + {es[n].key}
  {
  }

  /** The map after n entries does not depend on the nodes created later. */
  lemma {:induction false} NameMapPrefix(es: seq<Member>, ns: seq<Node>, more: seq<Node>, n: nat)
    requires n <= |es| && n <= |ns|
    ensures NameMap(es, ns + more, n) == NameMap(es, ns, n)
  {
    if n > 0 {
      NameMapPrefix(es, ns, more, n - 1);
    }
  }

  /**
   * What loading an entry into a fresh node of its type does, given the names
   * mapped so far.  With `asWritten` a frame takes the frame branch as written,
   * whose parent line names the undefined `nodes`; otherwise the corrected one.
   */
  function EntryOutcome(data: Value, typeId: string, parents: map<string, Node>, asWritten: bool): Partial<NodeState<Node>>
    requires data.Object? && BlankExt(typeId).Some?
  {
    var s := BlankState(BlankExt(typeId).value);
    if s.ext.RerouteExt? then Partial(s, Some(NoLoadMethod(typeId)))
    else if asWritten && s.ext.FrameExt? then LoadSteps(FrameSchemaAsWritten, s, data.members, parents)
    else LoadSteps(Schema(s.ext), s, data.members, parents)
  }

  /** Entry k's outcome in a pass that created `created`; its own key is already mapped. */
  function Outcome(es: seq<Member>, created: seq<Node>, k: nat, asWritten: bool): Partial<NodeState<Node>>
    requires k < |created| <= |es| && EntryType(es[k].value).Creatable?
  {
    EntryOutcome(es[k].value, EntryType(es[k].value).typeId, NameMap(es, created, k + 1), asWritten)
  }

  /**
   * The load pass over `es` ended with `created` and `err`; `outs` are the
   * outcomes of its entries.  One node per entry in document order, each
   * named by the host and holding its entry's outcome, loaded against the
   * names mapped up to and including its own; the pass stops at the first
   * entry whose node cannot be created or does not load, and keeps what it
   * did before.
   */
  ghost predicate Replayed(es: seq<Member>, created: seq<Node>, outs: seq<Partial<NodeState<Node>>>, hostName: nat -> string, err: Option<LoadError>, asWritten: bool)
    reads set n | n in created
  {
    Built(created, hostName, outs) && Outcomes(es, created, outs, asWritten) && Stopped(es, |created|, outs, err)
  }

  /**
   * How a pass that created `n` nodes with outcomes `outs` ended: every
   * outcome but the last is clean; no error means every entry was loaded
   * cleanly; otherwise the error is the last outcome's, or the reason why
   * the next entry's node could not be created.
   */
  ghost predicate Stopped(es: seq<Member>, n: nat, outs: seq<Partial<NodeState<Node>>>, err: Option<LoadError>)
  {
    && (forall k :: 0 <= k < |outs| - 1 ==> outs[k].err.None?)
    && (err.None? <==> n == |es| && (|outs| == 0 || outs[|outs| - 1].err.None?))
    && (err.Some? && |outs| > 0 && outs[|outs| - 1].err.Some? ==> err == outs[|outs| - 1].err)
    && (err.Some? && (|outs| == 0 || outs[|outs| - 1].err.None?) ==>
          n < |es| && EntryType(es[n].value).Refused? && err == Some(EntryType(es[n].value).e))
  }

  /** The nodes created so far, one per entry, each named by the host and holding its outcome's state. */
  ghost predicate Built(created: seq<Node>, hostName: nat -> string, outs: seq<Partial<NodeState<Node>>>)
    reads set n | n in created
  {
    |created| == |outs| && forall k :: 0 <= k < |created| ==> created[k].name == hostName(k) && created[k].State() == outs[k].value
  }

  /** `outs` are the outcomes of the entries the nodes were created for. */
  ghost predicate Outcomes(es: seq<Member>, created: seq<Node>, outs: seq<Partial<NodeState<Node>>>, asWritten: bool)
  {
    |outs| == |created| <= |es| && OutcomesUpTo(es, created, outs, |created|, asWritten)
  }

  /** The first `n` outcomes are those of entries whose nodes could be created. */
  ghost predicate OutcomesUpTo(es: seq<Member>, created: seq<Node>, outs: seq<Partial<NodeState<Node>>>, n: nat, asWritten: bool)
  {
    && n <= |outs| && n <= |created| <= |es|
    && (n == 0 || (OutcomesUpTo(es, created, outs, n - 1, asWritten) && EntryType(es[n - 1].value).Creatable? && outs[n - 1] == Outcome(es, created, n - 1, asWritten)))
  }

  /** Reading one outcome back. */
  lemma {:induction false} OutcomeAt(es: seq<Member>, created: seq<Node>, outs: seq<Partial<NodeState<Node>>>, n: nat, k: nat, asWritten: bool)
    requires OutcomesUpTo(es, created, outs, n, asWritten) && k < n
    ensures EntryType(es[k].value).Creatable? && outs[k] == Outcome(es, created, k, asWritten)
  {
    assert OutcomesUpTo(es, created, outs, n - 1, asWritten);
    if k < n - 1 {
      OutcomeAt(es, created, outs, n - 1, k, asWritten);
    }
  }

  /** The first `i` outcomes carry no error. */
  ghost predicate Clean(outs: seq<Partial<NodeState<Node>>>, i: nat)
  {
    i <= |outs| && forall k :: 0 <= k < i ==> outs[k].err.None?
  }

  /**
   * An entry whose `parent` names no entry up to and including itself, one
   * that comes later included, does not load: the name map does not hold it yet.
   */
  lemma ParentMustComeFirst(es: seq<Member>, created: seq<Node>, k: nat, asWritten: bool)
    requires k < |created| <= |es| && EntryType(es[k].value).Creatable?
    requires Get(es[k].value.members, "parent").Some?
    requires var v := Get(es[k].value.members, "parent").value; Truthy(v) && !(v.Str? && v.s in KeysBefore(es, k + 1))
    ensures Outcome(es, created, k, asWritten).err.Some?
  {
    var ext := BlankExt(EntryType(es[k].value).typeId).value;
    if asWritten && ext.FrameExt? {
      FrameAsWrittenFailsWithParent(BlankState<Node>(ext), es[k].value.members, NameMap(es, created, k + 1));
    } else {
      NameMapSpec(es, created, k + 1);
      LoadedParent(BlankState<Node>(ext), es[k].value.members, NameMap(es, created, k + 1));
    }
  }

  /** Entry i is the last of entries 0..k filed under `key`. */
  predicate LastEntry(es: seq<Member>, key: string, i: nat, k: nat)
    requires k < |es|
  {
    i <= k && es[i].key == key && forall j :: i < j <= k ==> es[j].key != key
  }

  /**
   * A loaded entry's parent is none exactly when its `parent` is null (or
   * otherwise falsy); otherwise it is the node created for the last entry so
   * far under that name.
   */
  lemma LoadedEntryParent(es: seq<Member>, created: seq<Node>, k: nat)
    requires k < |created| <= |es| && EntryType(es[k].value).Creatable?
    requires !BlankExt(EntryType(es[k].value).typeId).value.RerouteExt?
    requires Outcome(es, created, k, false).err.None?
    ensures var v := Get(es[k].value.members, "parent");
      && v.Some?
      && (Outcome(es, created, k, false).value.parent.None? <==> !Truthy(v.value))
      && (Truthy(v.value) ==> v.value.Str? && exists i: nat :: LastEntry(es, v.value.s, i, k) && Outcome(es, created, k, false).value.parent == Some(created[i]))
  {
    var ext := BlankExt(EntryType(es[k].value).typeId).value;
    var parents := NameMap(es, created, k + 1);
    NameMapSpec(es, created, k + 1);
    LoadedParent(BlankState<Node>(ext), es[k].value.members, parents);
    var v := Get(es[k].value.members, "parent");
    if Truthy(v.value) {
      var i := LastBefore(es, v.value.s, k + 1);
      assert parents[v.value.s] == created[i];
    }
  }

  /** An entry's own key is mapped to its own node before the entry loads. */
  lemma OwnKeyMapped(es: seq<Member>, created: seq<Node>, k: nat)
    requires k < |created| <= |es|
    ensures es[k].key in NameMap(es, created, k + 1) && NameMap(es, created, k + 1)[es[k].key] == created[k]
  {
  }

  /** What the pass recorded for entry k is the entry's outcome, held by its node. */
  lemma ReplayedOutcome(es: seq<Member>, created: seq<Node>, outs: seq<Partial<NodeState<Node>>>, hostName: nat -> string, err: Option<LoadError>, asWritten: bool, k: nat)
    requires Replayed(es, created, outs, hostName, err, asWritten) && k < |created|
    ensures EntryType(es[k].value).Creatable?
    ensures created[k].name == hostName(k) && created[k].State() == Outcome(es, created, k, asWritten).value
    ensures k < |created| - 1 ==> Outcome(es, created, k, asWritten).err.None?
  {
    OutcomeAt(es, created, outs, |created|, k, asWritten);
  }

  /**
   * A pass that reaches an entry whose `parent` names no entry up to and
   * including itself stops there, with that entry's error.
   */
  lemma ForwardParentStops(es: seq<Member>, created: seq<Node>, outs: seq<Partial<NodeState<Node>>>, hostName: nat -> string, err: Option<LoadError>, asWritten: bool, k: nat)
    requires Replayed(es, created, outs, hostName, err, asWritten) && k < |created| && es[k].value.Object?
    requires Get(es[k].value.members, "parent").Some?
    requires var v := Get(es[k].value.members, "parent").value; Truthy(v) && !(v.Str? && v.s in KeysBefore(es, k + 1))
    ensures |created| == k + 1 && err.Some? && err == Outcome(es, created, k, asWritten).err
  {
    ReplayedOutcome(es, created, outs, hostName, err, asWritten, k);
    ParentMustComeFirst(es, created, k, asWritten);
    OutcomeAt(es, created, outs, |created|, k, asWritten);
  }

  /** The nodes of `ns` that are selected, in tree order (`context.selected_nodes`). */
  function SelectedOf(ns: seq<Node>): (r: seq<Node>)
    reads set n | n in ns
    ensures |r| <= |ns|
  {
    if ns == [] then []
    else
      var rest := SelectedOf(ns[..|ns| - 1]);
      var n := ns[|ns| - 1];
      if n.select then rest + [n] else rest
  }

  /** The selected nodes are exactly the nodes whose select flag is set. */
  lemma {:induction false} SelectedOfSpec(ns: seq<Node>)
    ensures forall n :: n in SelectedOf(ns) ==> n in ns && n.select
    ensures forall n :: n in ns && n.select ==> n in SelectedOf(ns)
  {
    if ns != [] {
      var front := ns[..|ns| - 1];
      SelectedOfSpec(front);
      assert forall x :: x in ns <==> x in front || x == ns[|ns| - 1] by { assert ns == front + [ns[|ns| - 1]]; }
    }
  }

  /** What the host keeps true of a tree: unique, non-empty names, and every node sized. */
  predicate WellFormed(ns: seq<Node>)
    reads set n | n in ns
  {
    && (forall i, j :: 0 <= i < j < |ns| ==> ns[i].name != ns[j].name)
    && (forall n :: n in ns ==> n.name != "" && n.Valid())
  }

  /** A tree stays well-formed when the nodes a load pass created are added to it. */
  lemma LoadedWellFormed(ns: seq<Node>, es: seq<Member>, created: seq<Node>, outs: seq<Partial<NodeState<Node>>>, hostName: nat -> string, asWritten: bool)
    requires WellFormed(ns) && Built(created, hostName, outs) && Outcomes(es, created, outs, asWritten)
    requires forall a: nat, b: nat :: a != b ==> hostName(a) != hostName(b)
    requires forall a: nat :: hostName(a) != ""
    requires forall a: nat, i :: 0 <= i < |ns| ==> hostName(a) != ns[i].name
    ensures WellFormed(ns + created)
  {
    BuiltValid(es, created, outs, hostName, asWritten);
    WellFormedAppend(ns, created, hostName);
  }

  /** Nodes named by the host, uniquely and apart from the tree's names, keep the tree well formed. */
  lemma WellFormedAppend(ns: seq<Node>, created: seq<Node>, hostName: nat -> string)
    requires WellFormed(ns)
    requires forall k :: 0 <= k < |created| ==> created[k].name == hostName(k) && created[k].Valid()
    requires forall a: nat, b: nat :: a != b ==> hostName(a) != hostName(b)
    requires forall a: nat :: hostName(a) != ""
    requires forall a: nat, i :: 0 <= i < |ns| ==> hostName(a) != ns[i].name
    ensures WellFormed(ns + created)
  {
    var all := ns + created;
    forall i, j | 0 <= i < j < |all| ensures all[i].name != all[j].name {
      if j < |ns| {
        assert all[i] == ns[i] && all[j] == ns[j];
      } else if i < |ns| {
        assert all[j].name == hostName(j - |ns|) && all[i] == ns[i];
      } else {
        assert all[i].name == hostName(i - |ns|) && all[j].name == hostName(j - |ns|);
      }
    }
    forall n | n in all ensures n.name != "" && n.Valid() {
      var i :| 0 <= i < |all| && all[i] == n;
      if i >= |ns| {
        assert n == created[i - |ns|];
      }
    }
  }

  /** The node tree being edited. */
  class NodeTree {
    var nodes: seq<Node>

    /** The host keeps node names unique and non-empty within a tree, and every node sized. */
    predicate Valid()
      reads this, set n | n in nodes
    {
      WellFormed(nodes)
    }

    constructor ()
      ensures nodes == []
      ensures Valid()
    {
      nodes := [];
    }

    /**
     * The save operator: the version, and for each saved node in tree order
     * its record under its name (`save_dict['nodes'][node.name] = ...`).
     */
    method SaveNodes() returns (doc: Value)
      requires Valid()
      ensures doc == Document(Records(nodes))
    {
      var entries: seq<Member> := [];
      for i := 0 to |nodes|
        invariant entries == Records(nodes[..i])
      {
        var n := nodes[i];
        RecordsStep(nodes, i);
        if HasSave(n.ext) || n.ext.FrameExt? {
          entries := Put(entries, n.name, n.Save());
        }
      }
      assert nodes[..|nodes|] == nodes;
      doc := Document(entries);
    }

    /**
     * The load operator, in its one pass: for each document entry in order,
     * create a node of the entry's type (the host names it `hostName(index)`,
     * a name unique in the tree), map the entry's key to it, then load the
     * entry into it.  Nothing is rolled back when an entry fails; the version
     * is not read.  `asWritten` selects the frame branch as written.
     */
    method LoadNodes(doc: Value, hostName: nat -> string, asWritten: bool) returns (created: seq<Node>, err: Option<LoadError>, ghost outs: seq<Partial<NodeState<Node>>>)
      requires Valid()
      requires forall a: nat, b: nat :: a != b ==> hostName(a) != hostName(b)
      requires forall a: nat :: hostName(a) != ""
      requires forall a: nat, i :: 0 <= i < |nodes| ==> hostName(a) != nodes[i].name
      modifies this`nodes
      ensures Valid()
      ensures nodes == old(nodes) + created
      ensures DocumentEntries(doc).Unlisted? ==> created == [] && err == Some(DocumentEntries(doc).e)
      ensures DocumentEntries(doc).Listed? ==> Replayed(DocumentEntries(doc).entries, created, outs, hostName, err, asWritten)
    {
      created := [];
      var listed := DocumentEntries(doc);
      if listed.Unlisted? {
        return [], Some(listed.e), [];
      }
      created, err, outs := LoadEntries(listed.entries, hostName, asWritten);
      nodes := nodes + created;
      LoadedWellFormed(old(nodes), listed.entries, created, outs, hostName, asWritten);
    }

    /**
     * The compact-mode switch: every selected node that has `mode_compact`
     * takes `mode`; the selection is cleared and then restored.  Nothing but
     * the nodes' type-specific part and their select flags may change.
     */
    method SwitchCompactMode(mode: bool)
      modifies (set n | n in nodes)`ext, (set n | n in nodes)`select
      ensures forall n :: n in nodes ==> n.select == old(n.select)
      ensures forall n :: n in nodes ==> n.ext == if old(n.select) then Compacted(old(n.ext), mode) else old(n.ext)
    {
      var selected := SelectedOf(nodes);
      SelectedOfSpec(nodes);
      assert forall n :: n in selected ==> n in nodes;
      ghost var done: set<Node> := {};
      for i := 0 to |selected|
        invariant forall n :: n in nodes ==> n.select == old(n.select)
        invariant forall n :: n in nodes ==> n.ext == if n in done then Compacted(old(n.ext), mode) else old(n.ext)
        invariant forall k :: 0 <= k < i ==> selected[k] in done
        invariant forall n :: n in done ==> n in selected
      {
        var n := selected[i];
        assert old(allocated(n)) by { assert n in old(nodes); }
        n.SwitchCompact(mode);
        done := done + {n};
      }
      Reselect(selected);
    }

    /**
     * The picker-mode switch: every selected picker takes `mode`, which its
     * update callback pushes down to the rows; the selection is cleared and
     * then restored.
     */
    method SwitchSelectPickerMode(mode: SelectMode)
      modifies (set n | n in nodes)`ext, (set n | n in nodes)`select
      ensures forall n :: n in nodes ==> n.select == old(n.select)
      ensures forall n :: n in nodes ==> n.ext == if old(n.select) then ModeSwitched(old(n.ext), mode) else old(n.ext)
    {
      var selected := SelectedOf(nodes);
      SelectedOfSpec(nodes);
      assert forall n :: n in selected ==> n in nodes;
      ghost var done: set<Node> := {};
      for i := 0 to |selected|
        invariant forall n :: n in nodes ==> n.select == old(n.select)
        invariant forall n :: n in nodes ==> n.ext == if n in done then ModeSwitched(old(n.ext), mode) else old(n.ext)
        invariant forall k :: 0 <= k < i ==> selected[k] in done
        invariant forall n :: n in done ==> n in selected
      {
        var n := selected[i];
        assert old(allocated(n)) by { assert n in old(nodes); }
        ModeSwitchedTwice(old(n.ext), mode);
        n.SwitchPickerMode(mode);
        done := done + {n};
      }
      Reselect(selected);
    }

    /** `select_all(action='DESELECT')`, then every node of `selected` selected again. */
    method Reselect(selected: seq<Node>)
      requires forall n :: n in selected <==> n in nodes && n.select
      modifies (set n | n in nodes)`select
      ensures forall n :: n in nodes ==> n.select == old(n.select)
    {
      for i := 0 to |nodes|
        invariant forall n :: n in nodes[..i] ==> !n.select
        invariant forall n :: n in nodes && n !in nodes[..i] ==> n.select == old(n.select)
      {
        assert forall x :: x in nodes[..i + 1] <==> x in nodes[..i] || x == nodes[i] by { assert nodes[..i + 1] == nodes[..i] + [nodes[i]]; }
        nodes[i].select := false;
      }
      assert nodes[..|nodes|] == nodes;
      for i := 0 to |selected|
        invariant forall n :: n in nodes ==> n.select == (n in selected[..i])
      {
        assert forall x :: x in selected[..i + 1] <==> x in selected[..i] || x == selected[i] by { assert selected[..i + 1] == selected[..i] + [selected[i]]; }
        selected[i].select := true;
      }
      assert selected[..|selected|] == selected;
    }
  }

  /** Mapping the next entry's key to its new node gives the name map one entry further on. */
  lemma Extended(es: seq<Member>, created: seq<Node>, node: Node, i: nat)
    requires i == |created| < |es|
    ensures NameMap(es, created, i)[es[i].key := node] == NameMap(es, created + [node], i + 1)
  {
    NameMapPrefix(es, created, [node], i);
  }

  /**
   * The pass over the entries of the document's `nodes` object.  The host
   * adds each node to the tree as it creates it; nothing in the pass reads the
   * tree, so the model adds them all at the end.
   */
  method LoadEntries(es: seq<Member>, hostName: nat -> string, asWritten: bool) returns (created: seq<Node>, err: Option<LoadError>, ghost outs: seq<Partial<NodeState<Node>>>)
    ensures Replayed(es, created, outs, hostName, err, asWritten)
  {
    created := [];
    var parents: map<string, Node> := map[];
    outs := [];
    var i := 0;
    while i < |es|
      invariant 0 <= i <= |es| && |created| == i
      invariant parents == NameMap(es, created, i)
      invariant Progress(es, created, outs, hostName, asWritten)
    {
      var kind := EntryType(es[i].value);
      if kind.Refused? {
        ReplayedRefused(es, created, hostName, outs, asWritten);
        return created, Some(kind.e), outs;
      }
      var node, e := LoadEntry(es, created, outs, hostName, hostName(i), es[i].value, es[i].key, kind.typeId, parents, asWritten);
      created := created + [node];
      outs := outs + [Partial(node.State(), e)];
      parents := parents[es[i].key := node];
      if e.Some? {
        return created, e, outs;
      }
      i := i + 1;
    }
    ReplayedDone(es, created, hostName, outs, asWritten);
    err := None;
  }

  /**
   * One entry of the load pass: a fresh node of the entry's type, mapped
   * under the entry's key, then loaded.  Either the pass goes on with one
   * more node built, or it ends here with the load's error.
   */
  method LoadEntry(ghost es: seq<Member>, ghost created: seq<Node>, ghost outs: seq<Partial<NodeState<Node>>>, ghost hostName: nat -> string,
                   name: string, data: Value, key: string, typeId: string, parents: map<string, Node>, asWritten: bool)
    returns (node: Node, e: Option<LoadError>)
    requires Progress(es, created, outs, hostName, asWritten) && |created| < |es| && es[|created|] == Member(key, data)
    requires EntryType(data) == Creatable(typeId) && parents == NameMap(es, created, |created|) && name == hostName(|created|)
    ensures fresh(node)
    ensures parents[key := node] == NameMap(es, created + [node], |created| + 1)
    ensures e.None? ==> Progress(es, created + [node], outs + [Partial(node.State(), e)], hostName, asWritten)
    ensures e.Some? ==> Replayed(es, created + [node], outs + [Partial(node.State(), e)], hostName, e, asWritten)
  {
    node, e := CreateAndLoad(name, data, key, typeId, parents, asWritten);
    ghost var o := Partial(node.State(), e);
    OutcomeNew(es, created, node, o, asWritten);
    OutcomesStep(es, created, outs, node, o, asWritten);
    BuiltStep(created, hostName, outs, node, o);
    Extended(es, created, node, |created|);
    if e.Some? {
      ReplayedFailed(es, created + [node], hostName, outs + [o], asWritten);
    } else {
      CleanStep(outs, o);
    }
  }

  /**
   * `nodes.new(node_data['type'])`, `parent_nodes[node_name] = new_node`,
   * then `new_node.load(node_data)`; a reroute has no `load`.
   */
  method CreateAndLoad(name: string, data: Value, key: string, typeId: string, parents: map<string, Node>, asWritten: bool)
    returns (node: Node, e: Option<LoadError>)
    requires data.Object? && BlankExt(typeId).Some?
    ensures fresh(node) && node.name == name
    ensures Partial(node.State(), e) == EntryOutcome(data, typeId, parents[key := node], asWritten)
  {
    node := new Node(name, typeId);
    if node.ext.RerouteExt? {
      e := Some(NoLoadMethod(typeId));
    } else if asWritten && node.ext.FrameExt? {
      e := node.LoadFrameAsWritten(data.members, parents[key := node]);
    } else {
      e := node.Load(data.members, parents[key := node]);
    }
  }

  /** The pass so far: the nodes built, their outcomes, none with an error. */
  ghost predicate Progress(es: seq<Member>, created: seq<Node>, outs: seq<Partial<NodeState<Node>>>, hostName: nat -> string, asWritten: bool)
    reads set n | n in created
  {
    Built(created, hostName, outs) && Outcomes(es, created, outs, asWritten) && Clean(outs, |created|)
  }

  lemma CleanStep(outs: seq<Partial<NodeState<Node>>>, o: Partial<NodeState<Node>>)
    requires Clean(outs, |outs|) && o.err.None?
    ensures Clean(outs + [o], |outs| + 1)
  {
    assert forall k :: 0 <= k < |outs| ==> (outs + [o])[k] == outs[k];
  }

  /** Creating the next node adds its outcome, and keeps the earlier entries' outcomes. */
  lemma OutcomesStep(es: seq<Member>, created: seq<Node>, outs: seq<Partial<NodeState<Node>>>, node: Node, o: Partial<NodeState<Node>>, asWritten: bool)
    requires Outcomes(es, created, outs, asWritten) && |created| < |es| && EntryType(es[|created|].value).Creatable?
    requires o == Outcome(es, created + [node], |created|, asWritten)
    ensures Outcomes(es, created + [node], outs + [o], asWritten)
  {
    OutcomesKept(es, created, outs, node, o, |created|, asWritten);
  }

  /** The earlier entries' outcomes do not change when another node is created. */
  lemma {:induction false} OutcomesKept(es: seq<Member>, created: seq<Node>, outs: seq<Partial<NodeState<Node>>>, node: Node, o: Partial<NodeState<Node>>, n: nat, asWritten: bool)
    requires OutcomesUpTo(es, created, outs, n, asWritten) && n <= |created| < |es|
    ensures OutcomesUpTo(es, created + [node], outs + [o], n, asWritten)
  {
    if n > 0 {
      assert OutcomesUpTo(es, created, outs, n - 1, asWritten);
      OutcomesKept(es, created, outs, node, o, n - 1, asWritten);
      NameMapPrefix(es, created, [node], n);
      assert (outs + [o])[n - 1] == outs[n - 1];
    }
  }

  /** The node just created and loaded holds the outcome of its entry. */
  lemma OutcomeNew(es: seq<Member>, created: seq<Node>, node: Node, o: Partial<NodeState<Node>>, asWritten: bool)
    requires |created| < |es| && EntryType(es[|created|].value).Creatable?
    requires o == EntryOutcome(es[|created|].value, EntryType(es[|created|].value).typeId, NameMap(es, created, |created|)[es[|created|].key := node], asWritten)
    ensures o == Outcome(es, created + [node], |created|, asWritten)
  {
    Extended(es, created, node, |created|);
  }

  /** The next node, holding its outcome's state, extends what was built. */
  lemma BuiltStep(created: seq<Node>, hostName: nat -> string, outs: seq<Partial<NodeState<Node>>>, node: Node, o: Partial<NodeState<Node>>)
    requires Built(created, hostName, outs)
    requires node.name == hostName(|created|) && node.State() == o.value
    ensures Built(created + [node], hostName, outs + [o])
  {
    var c := created + [node];
    forall k | 0 <= k < |c| ensures c[k].name == hostName(k) && c[k].State() == (outs + [o])[k].value {
      if k < |created| {
        assert c[k] == created[k] && (outs + [o])[k] == outs[k];
      }
    }
  }

  lemma ReplayedRefused(es: seq<Member>, created: seq<Node>, hostName: nat -> string, outs: seq<Partial<NodeState<Node>>>, asWritten: bool)
    requires Progress(es, created, outs, hostName, asWritten)
    requires |created| < |es| && EntryType(es[|created|].value).Refused?
    ensures Replayed(es, created, outs, hostName, Some(EntryType(es[|created|].value).e), asWritten)
  {
  }

  lemma ReplayedFailed(es: seq<Member>, created: seq<Node>, hostName: nat -> string, outs: seq<Partial<NodeState<Node>>>, asWritten: bool)
    requires Built(created, hostName, outs) && Outcomes(es, created, outs, asWritten) && |created| > 0
    requires Clean(outs, |created| - 1) && outs[|created| - 1].err.Some?
    ensures Replayed(es, created, outs, hostName, outs[|created| - 1].err, asWritten)
  {
  }

  lemma ReplayedDone(es: seq<Member>, created: seq<Node>, hostName: nat -> string, outs: seq<Partial<NodeState<Node>>>, asWritten: bool)
    requires Progress(es, created, outs, hostName, asWritten) && |created| == |es|
    ensures Replayed(es, created, outs, hostName, None, asWritten)
  {
  }

  // What the pass leaves on the nodes it creates.

  /** A load outcome keeps the host's sizes of the fresh node it starts from. */
  lemma OutcomeSized(data: Value, typeId: string, parents: map<string, Node>, asWritten: bool)
    requires data.Object? && BlankExt(typeId).Some?
    ensures Sized(EntryOutcome(data, typeId, parents, asWritten).value)
  {
    var s := BlankState<Node>(BlankExt(typeId).value);
    if !s.ext.RerouteExt? {
      if asWritten && s.ext.FrameExt? {
        LoadStepsSized(FrameSchemaAsWritten, s, data.members, parents);
      } else {
        LoadStepsSized(Schema(s.ext), s, data.members, parents);
      }
    }
  }

  /** Every node the pass created carries its host name and is sized. */
  lemma BuiltValid(es: seq<Member>, created: seq<Node>, outs: seq<Partial<NodeState<Node>>>, hostName: nat -> string, asWritten: bool)
    requires Built(created, hostName, outs) && Outcomes(es, created, outs, asWritten)
    ensures forall k :: 0 <= k < |created| ==> created[k].name == hostName(k) && created[k].Valid()
  {
    forall k | 0 <= k < |created| ensures created[k].name == hostName(k) && created[k].Valid() {
      OutcomeAt(es, created, outs, |created|, k, asWritten);
      OutcomeSized(es[k].value, EntryType(es[k].value).typeId, NameMap(es, created, k + 1), asWritten);
    }
  }

  /**
   * The as-written pass that reaches a frame entry with a non-null parent
   * stops there, having created the nodes up to and including the frame.
   */
  lemma FrameParentStopsAsWritten(es: seq<Member>, created: seq<Node>, outs: seq<Partial<NodeState<Node>>>, hostName: nat -> string, err: Option<LoadError>, k: nat)
    requires Replayed(es, created, outs, hostName, err, true) && k < |created|
    requires EntryType(es[k].value) == Creatable(FrameType)
    requires Get(es[k].value.members, "parent").Some? && Truthy(Get(es[k].value.members, "parent").value)
    ensures |created| == k + 1 && err.Some? && err == Outcome(es, created, k, true).err
  {
    ReplayedOutcome(es, created, outs, hostName, err, true, k);
    FrameAsWrittenFailsWithParent(BlankState<Node>(BlankExt(FrameType).value), es[k].value.members, NameMap(es, created, k + 1));
    OutcomeAt(es, created, outs, |created|, k, true);
  }

  // The round trip of a whole tree.

  /** The document the save operator writes lists exactly its entries. */
  lemma SavedDocumentListed(es: seq<Member>)
    ensures DocumentEntries(Document(es)) == Listed(es)
  {
    var ms := Document(es).members;
    assert ms[0].key != "nodes" by { assert ms[0].key[0] == 'v'; }
    assert Find(ms, "nodes") == 1;
  }

  /** Every saved node's parent is a saved node that comes before it. */
  ghost predicate ParentsFirst(sv: seq<Node>)
    reads set n | n in sv
  {
    forall i {:trigger sv[i].parent} :: 0 <= i < |sv| && sv[i].parent != null ==> exists j :: 0 <= j < i && sv[i].parent == sv[j]
  }

  /** Every node type can be created again from its own type id. */
  lemma BlankOfType(ext: Extension)
    ensures BlankExt(TypeIdOf(ext)).Some? && SameKind(BlankExt(TypeIdOf(ext)).value, ext)
  {
  }

  /**
   * One saved record loads back into a fresh node of its type: no error, the
   * same type, re-encoding with the saved parent name to the same record, and the parent looked up by
   * name.  The as-written frame branch does the same for a frame without parent.
   */
  lemma SavedEntryLoads(s: NodeState<Node>, parentName: Option<string>, parents: map<string, Node>, asWritten: bool)
    requires Sized(s) && (HasSave(s.ext) || s.ext.FrameExt?)
    requires parentName.Some? ==> parentName.value != "" && parentName.value in parents
    requires asWritten && s.ext.FrameExt? ==> parentName.None?
    ensures Encode(s, parentName).Object? && BlankExt(TypeIdOf(s.ext)).Some?
    ensures var o := EntryOutcome(Encode(s, parentName), TypeIdOf(s.ext), parents, asWritten);
      && o.err.None? && TypeIdOf(o.value.ext) == TypeIdOf(s.ext)
      && Encode(o.value, parentName) == Encode(s, parentName)
      && o.value.parent == RestoredParent(parentName, parents)
  {
    BlankOfType(s.ext);
    var t := BlankState<Node>(BlankExt(TypeIdOf(s.ext)).value);
    assert Restorable(s, t, parentName, parents);
    RoundTrip(s, t, parentName, parents);
    if asWritten && s.ext.FrameExt? {
      SavedFields(s, parentName);
      FrameAsWrittenWithoutParent(t, Encode(s, parentName).members, parents);
    }
  }

  /** As written, a frame saved with a parent fails on its parent line, after the fields before it load. */
  lemma SavedFrameStops(s: NodeState<Node>, parentName: string, parents: map<string, Node>)
    requires Sized(s) && s.ext.FrameExt? && parentName != "" && parentName in parents
    ensures Encode(s, Some(parentName)).Object?
    ensures EntryOutcome(Encode(s, Some(parentName)), FrameType, parents, true).err == Some(UndefinedName("nodes"))
  {
    var t := BlankState<Node>(BlankExt(FrameType).value);
    assert Restorable(s, t, Some(parentName), parents);
    RoundTrip(s, t, Some(parentName), parents);
    SavedFields(s, Some(parentName));
    FrameAsWrittenStopsAtParent(t, Encode(s, Some(parentName)).members, parents);
  }

  /**
   * The document `es` lists the nodes `sv` by name: entry i is filed under
   * node i's name, the names are distinct and non-empty, and every node's
   * parent is listed before it.
   */
  ghost predicate ListedByName(es: seq<Member>, sv: seq<Node>)
    reads set n | n in sv
  {
    && |es| == |sv|
    && (forall i :: 0 <= i < |sv| ==> es[i].key == sv[i].name && sv[i].name != "")
    && (forall a, b :: 0 <= a < b < |sv| ==> sv[a].name != sv[b].name)
    && ParentsFirst(sv)
  }

  /**
   * The document `es` lists the saved nodes `sv` of a well-formed tree whose
   * parents come first.
   */
  ghost predicate SavedDocument(es: seq<Member>, sv: seq<Node>)
    reads set n | n in sv
  {
    && ListedByName(es, sv)
    && forall i :: 0 <= i < |sv| ==> sv[i].Valid() && (HasSave(sv[i].ext) || sv[i].ext.FrameExt?)
  }

  /** A well-formed tree whose parents come first saves such a document. */
  lemma SavedDocumentOf(ns: seq<Node>)
    requires WellFormed(ns) && ParentsFirst(Saved(ns))
    ensures SavedDocument(Records(ns), Saved(ns))
    ensures forall i :: 0 <= i < |Records(ns)| ==> Records(ns)[i].value == Saved(ns)[i].Save()
  {
    SavedEntries(ns);
    SavedNames(ns);
  }

  /**
   * A saved node's parent name is mapped, when its entry loads, to the node
   * created for the parent's entry.
   */
  lemma SavedParentMapped(es: seq<Member>, sv: seq<Node>, created: seq<Node>, k: nat)
    requires ListedByName(es, sv)
    requires k < |created| <= |es| && sv[k].parent != null
    ensures var name := sv[k].parent.name;
      && name != "" && name in NameMap(es, created, k + 1)
      && forall j :: 0 <= j < k && sv[k].parent == sv[j] ==> NameMap(es, created, k + 1)[name] == created[j]
  {
    var j0 :| 0 <= j0 < k && sv[k].parent == sv[j0];
    ParentMappedAt(es, sv, created, k, j0);
  }

  /** `SavedParentMapped` for the entry `j0` of the parent. */
  lemma ParentMappedAt(es: seq<Member>, sv: seq<Node>, created: seq<Node>, k: nat, j0: nat)
    requires k < |created| <= |es| == |sv| && j0 < k
    requires forall i :: 0 <= i < |sv| ==> es[i].key == sv[i].name
    requires forall a, b :: 0 <= a < b < |sv| ==> sv[a].name != sv[b].name
    requires sv[j0].name != ""
    ensures var name := sv[j0].name;
      && name != "" && name in NameMap(es, created, k + 1)
      && forall j :: 0 <= j < k && sv[j0] == sv[j] ==> NameMap(es, created, k + 1)[name] == created[j]
  {
    assert forall a, b :: 0 <= a < b < k + 1 ==> es[a].key != es[b].key;
    DistinctKeysMapped(es, created, k + 1, j0);
    forall j | 0 <= j < k && sv[j0] == sv[j] ensures j == j0 {
      assert sv[j].name == sv[j0].name;
    }
  }

  /** When the first `n` keys are distinct, each of them maps to the node of its own entry. */
  lemma DistinctKeysMapped(es: seq<Member>, ns: seq<Node>, n: nat, j: nat)
    requires j < n <= |es| && n <= |ns|
    requires forall a, b :: 0 <= a < b < n ==> es[a].key != es[b].key
    ensures es[j].key in NameMap(es, ns, n) && NameMap(es, ns, n)[es[j].key] == ns[j]
  {
    NameMapSpec(es, ns, n);
    assert es[j].key in KeysBefore(es, n);
    var i := LastBefore(es, es[j].key, n);
    assert i == j;
  }

  /** A saved entry asks for a node of its saved node's type. */
  lemma SavedEntryType(es: seq<Member>, sv: seq<Node>, k: nat)
    requires SavedDocument(es, sv) && k < |es| && es[k].value == sv[k].Save()
    ensures EntryType(es[k].value) == Creatable(TypeIdOf(sv[k].ext))
  {
    var n := sv[k];
    SavedFields(n.State(), n.ParentName());
    BlankOfType(n.ext);
  }

  /**
   * Entry k of a saved document, in a pass that reached it: it loads without
   * error, and the node created for it has the saved node's type, re-encodes,
   * with the saved parent name, to the saved record, and has as parent the
   * node created for the saved parent's entry.
   */
  lemma SavedReplayedAt(es: seq<Member>, sv: seq<Node>, created: seq<Node>, outs: seq<Partial<NodeState<Node>>>, hostName: nat -> string, err: Option<LoadError>, asWritten: bool, k: nat)
    requires SavedDocument(es, sv) && Replayed(es, created, outs, hostName, err, asWritten)
    requires k < |created| <= |es| && es[k].value == sv[k].Save()
    requires asWritten && sv[k].ext.FrameExt? ==> sv[k].parent == null
    ensures k < |outs| && outs[k].err.None?
    ensures TypeIdOf(created[k].ext) == TypeIdOf(sv[k].ext)
    ensures Encode(created[k].State(), sv[k].ParentName()) == es[k].value
    ensures sv[k].parent == null ==> created[k].parent == null
    ensures forall j :: 0 <= j < k && sv[k].parent == sv[j] ==> created[k].parent == created[j]
  {
    var n := sv[k];
    var parents := NameMap(es, created, k + 1);
    if n.parent != null {
      SavedParentMapped(es, sv, created, k);
    }
    SavedEntryType(es, sv, k);
    SavedEntryLoads(n.State(), n.ParentName(), parents, asWritten);
    OutcomeAt(es, created, outs, |created|, k, asWritten);
  }

  /**
   * Save then load: the pass over the document of a well-formed tree, in
   * which every saved node's parent is saved before it, creates one node per
   * entry and stops with no error.  Each created node has its saved node's
   * type and re-encodes, with the saved parent name, to that node's record,
   * and the created nodes are
   * linked to each other exactly as the saved nodes were.  The as-written
   * frame branch does the same when no saved frame has a parent.
   */
  lemma TreeRoundTrip(ns: seq<Node>, created: seq<Node>, outs: seq<Partial<NodeState<Node>>>, hostName: nat -> string, err: Option<LoadError>, asWritten: bool)
    requires WellFormed(ns) && ParentsFirst(Saved(ns))
    requires forall a: nat, b: nat :: a != b ==> hostName(a) != hostName(b)
    requires asWritten ==> forall i :: 0 <= i < |Saved(ns)| && Saved(ns)[i].ext.FrameExt? ==> Saved(ns)[i].parent == null
    requires Replayed(Records(ns), created, outs, hostName, err, asWritten)
    ensures err.None? && |created| == |Records(ns)|
    ensures forall i :: 0 <= i < |created| ==>
              TypeIdOf(created[i].ext) == TypeIdOf(Saved(ns)[i].ext) && Encode(created[i].State(), Saved(ns)[i].ParentName()) == Records(ns)[i].value
    ensures forall i, j :: 0 <= i < |created| && 0 <= j < |created| ==> (created[i].parent == created[j] <==> Saved(ns)[i].parent == Saved(ns)[j])
  {
    SavedDocumentOf(ns);
    DocumentRoundTrip(Records(ns), Saved(ns), created, outs, hostName, err, asWritten);
  }

  /** `TreeRoundTrip` on the document and the saved nodes. */
  lemma DocumentRoundTrip(es: seq<Member>, sv: seq<Node>, created: seq<Node>, outs: seq<Partial<NodeState<Node>>>, hostName: nat -> string, err: Option<LoadError>, asWritten: bool)
    requires SavedDocument(es, sv) && forall i :: 0 <= i < |es| ==> es[i].value == sv[i].Save()
    requires forall a: nat, b: nat :: a != b ==> hostName(a) != hostName(b)
    requires asWritten ==> forall i :: 0 <= i < |sv| && sv[i].ext.FrameExt? ==> sv[i].parent == null
    requires Replayed(es, created, outs, hostName, err, asWritten)
    ensures err.None? && |created| == |es|
    ensures forall i :: 0 <= i < |created| ==>
              TypeIdOf(created[i].ext) == TypeIdOf(sv[i].ext) && Encode(created[i].State(), sv[i].ParentName()) == es[i].value
    ensures forall i, j :: 0 <= i < |created| && 0 <= j < |created| ==> (created[i].parent == created[j] <==> sv[i].parent == sv[j])
  {
    DocumentLoads(es, sv, created, outs, hostName, err, asWritten);
    DocumentRecords(es, sv, created, outs, hostName, err, asWritten);
    DocumentLinks(es, sv, created, outs, hostName, err, asWritten);
  }

  /** The pass over the document reaches its end with no error. */
  lemma DocumentLoads(es: seq<Member>, sv: seq<Node>, created: seq<Node>, outs: seq<Partial<NodeState<Node>>>, hostName: nat -> string, err: Option<LoadError>, asWritten: bool)
    requires SavedDocument(es, sv) && forall i :: 0 <= i < |es| ==> es[i].value == sv[i].Save()
    requires asWritten ==> forall i :: 0 <= i < |sv| && sv[i].ext.FrameExt? ==> sv[i].parent == null
    requires Replayed(es, created, outs, hostName, err, asWritten)
    ensures err.None? && |created| == |es|
  {
    forall k | 0 <= k < |outs| ensures outs[k].err.None? {
      SavedReplayedAt(es, sv, created, outs, hostName, err, asWritten, k);
    }
    forall k | 0 <= k < |es| ensures EntryType(es[k].value).Creatable? {
      SavedEntryType(es, sv, k);
    }
    ReplayedCompletes(es, created, outs, hostName, err, asWritten);
  }

  /** Each created node has its saved node's type and re-encodes, with the saved parent name, to its record. */
  lemma DocumentRecords(es: seq<Member>, sv: seq<Node>, created: seq<Node>, outs: seq<Partial<NodeState<Node>>>, hostName: nat -> string, err: Option<LoadError>, asWritten: bool)
    requires SavedDocument(es, sv) && forall i :: 0 <= i < |es| ==> es[i].value == sv[i].Save()
    requires asWritten ==> forall i :: 0 <= i < |sv| && sv[i].ext.FrameExt? ==> sv[i].parent == null
    requires Replayed(es, created, outs, hostName, err, asWritten)
    ensures forall i :: 0 <= i < |created| ==>
              TypeIdOf(created[i].ext) == TypeIdOf(sv[i].ext) && Encode(created[i].State(), sv[i].ParentName()) == es[i].value
  {
    forall k | 0 <= k < |created|
      ensures TypeIdOf(created[k].ext) == TypeIdOf(sv[k].ext) && Encode(created[k].State(), sv[k].ParentName()) == es[k].value
    {
      SavedReplayedAt(es, sv, created, outs, hostName, err, asWritten, k);
    }
  }

  /** The created nodes are linked exactly as the saved nodes. */
  lemma DocumentLinks(es: seq<Member>, sv: seq<Node>, created: seq<Node>, outs: seq<Partial<NodeState<Node>>>, hostName: nat -> string, err: Option<LoadError>, asWritten: bool)
    requires SavedDocument(es, sv) && forall i :: 0 <= i < |es| ==> es[i].value == sv[i].Save()
    requires forall a: nat, b: nat :: a != b ==> hostName(a) != hostName(b)
    requires asWritten ==> forall i :: 0 <= i < |sv| && sv[i].ext.FrameExt? ==> sv[i].parent == null
    requires Replayed(es, created, outs, hostName, err, asWritten)
    ensures forall i, j :: 0 <= i < |created| && 0 <= j < |created| ==> (created[i].parent == created[j] <==> sv[i].parent == sv[j])
  {
    forall k | 0 <= k < |created|
      ensures sv[k].parent == null ==> created[k].parent == null
      ensures forall j :: 0 <= j < k && sv[k].parent == sv[j] ==> created[k].parent == created[j]
    {
      SavedReplayedAt(es, sv, created, outs, hostName, err, asWritten, k);
    }
    LinksKept(sv, created, hostName);
  }

  /** A pass in which every entry can be created and every outcome is clean reaches the end with no error. */
  lemma ReplayedCompletes(es: seq<Member>, created: seq<Node>, outs: seq<Partial<NodeState<Node>>>, hostName: nat -> string, err: Option<LoadError>, asWritten: bool)
    requires Replayed(es, created, outs, hostName, err, asWritten)
    requires forall i :: 0 <= i < |es| ==> EntryType(es[i].value).Creatable?
    requires forall i :: 0 <= i < |outs| ==> outs[i].err.None?
    ensures err.None? && |created| == |es|
  {
  }

  /** A pass in which the entries before `k` load cleanly, and every entry can be created, reaches entry `k`. */
  lemma ReplayedReaches(es: seq<Member>, created: seq<Node>, outs: seq<Partial<NodeState<Node>>>, hostName: nat -> string, err: Option<LoadError>, asWritten: bool, k: nat)
    requires Replayed(es, created, outs, hostName, err, asWritten) && k < |es|
    requires forall i :: 0 <= i < |es| ==> EntryType(es[i].value).Creatable?
    requires forall i :: 0 <= i < k && i < |outs| ==> outs[i].err.None?
    ensures k < |created|
  {
  }

  /** A pass whose outcome at `k` is an error stops there, with that error. */
  lemma ReplayedStopsAt(es: seq<Member>, created: seq<Node>, outs: seq<Partial<NodeState<Node>>>, hostName: nat -> string, err: Option<LoadError>, asWritten: bool, k: nat)
    requires Replayed(es, created, outs, hostName, err, asWritten) && k < |outs| && outs[k].err.Some?
    ensures |created| == k + 1 && err == outs[k].err
  {
  }

  /**
   * Created nodes that are linked as the saved nodes are, entry by entry,
   * are linked exactly as the saved nodes: the parent of node i is node j
   * just when the saved parent of node i is saved node j.
   */
  lemma LinksKept(sv: seq<Node>, created: seq<Node>, hostName: nat -> string)
    requires |created| <= |sv| && ParentsFirst(sv)
    requires forall a, b :: 0 <= a < b < |sv| ==> sv[a].name != sv[b].name
    requires forall a: nat, b: nat :: a != b ==> hostName(a) != hostName(b)
    requires forall k :: 0 <= k < |created| ==> created[k].name == hostName(k)
    requires forall k :: 0 <= k < |created| && sv[k].parent == null ==> created[k].parent == null
    requires forall k, j :: 0 <= j < k < |created| && sv[k].parent == sv[j] ==> created[k].parent == created[j]
    ensures forall i, j :: 0 <= i < |created| && 0 <= j < |created| ==> (created[i].parent == created[j] <==> sv[i].parent == sv[j])
  {
    forall i, j | 0 <= i < |created| && 0 <= j < |created| ensures created[i].parent == created[j] <==> sv[i].parent == sv[j] {
      if sv[i].parent != null {
        var p :| 0 <= p < i && sv[i].parent == sv[p];
        assert created[p].name == hostName(p) && created[j].name == hostName(j);
        assert sv[p].name == sv[j].name ==> p == j;
      }
    }
  }

  /**
   * The frame finding on a whole tree: the as-written pass over a saved
   * document stops at the first frame saved with a parent, with the frame
   * branch's NameError, having created the nodes up to and including that
   * frame; the entries before it loaded back as in the round trip.
   */
  lemma TreeFrameStopsAsWritten(ns: seq<Node>, created: seq<Node>, outs: seq<Partial<NodeState<Node>>>, hostName: nat -> string, err: Option<LoadError>, k: nat)
    requires WellFormed(ns) && ParentsFirst(Saved(ns))
    requires Replayed(Records(ns), created, outs, hostName, err, true)
    requires k < |Saved(ns)| && Saved(ns)[k].ext.FrameExt? && Saved(ns)[k].parent != null
    requires forall i :: 0 <= i < k && Saved(ns)[i].ext.FrameExt? ==> Saved(ns)[i].parent == null
    ensures |created| == k + 1 && err == Some(UndefinedName("nodes"))
    ensures forall i :: 0 <= i < k ==> Encode(created[i].State(), Saved(ns)[i].ParentName()) == Records(ns)[i].value
  {
    SavedDocumentOf(ns);
    DocumentFrameStops(Records(ns), Saved(ns), created, outs, hostName, err, k);
  }

  /** `TreeFrameStopsAsWritten` on the document and the saved nodes. */
  lemma DocumentFrameStops(es: seq<Member>, sv: seq<Node>, created: seq<Node>, outs: seq<Partial<NodeState<Node>>>, hostName: nat -> string, err: Option<LoadError>, k: nat)
    requires SavedDocument(es, sv) && forall i :: 0 <= i < |es| ==> es[i].value == sv[i].Save()
    requires Replayed(es, created, outs, hostName, err, true)
    requires k < |sv| && sv[k].ext.FrameExt? && sv[k].parent != null
    requires forall i :: 0 <= i < k && sv[i].ext.FrameExt? ==> sv[i].parent == null
    ensures |created| == k + 1 && err == Some(UndefinedName("nodes"))
    ensures forall i :: 0 <= i < k ==> Encode(created[i].State(), sv[i].ParentName()) == es[i].value
  {
    forall i | 0 <= i < |created| && i < k
      ensures i < |outs| && outs[i].err.None? && Encode(created[i].State(), sv[i].ParentName()) == es[i].value
    {
      SavedReplayedAt(es, sv, created, outs, hostName, err, true, i);
    }
    forall i | 0 <= i < |es| ensures EntryType(es[i].value).Creatable? {
      SavedEntryType(es, sv, i);
    }
    ReplayedReaches(es, created, outs, hostName, err, true, k);
    SavedFrameStopsAt(es, sv, created, outs, hostName, err, k);
    ReplayedStopsAt(es, created, outs, hostName, err, true, k);
  }

  /** The outcome of a frame entry saved with a parent, in the as-written pass that reached it. */
  lemma SavedFrameStopsAt(es: seq<Member>, sv: seq<Node>, created: seq<Node>, outs: seq<Partial<NodeState<Node>>>, hostName: nat -> string, err: Option<LoadError>, k: nat)
    requires SavedDocument(es, sv) && k < |es| && es[k].value == sv[k].Save()
    requires Replayed(es, created, outs, hostName, err, true)
    requires k < |created| && sv[k].ext.FrameExt? && sv[k].parent != null
    ensures k < |outs| && outs[k].err == Some(UndefinedName("nodes"))
  {
    var n := sv[k];
    SavedParentMapped(es, sv, created, k);
    SavedEntryType(es, sv, k);
    SavedFrameStops(n.State(), n.parent.name, NameMap(es, created, k + 1));
    OutcomeAt(es, created, outs, |created|, k, true);
  }
}
