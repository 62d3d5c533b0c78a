/**
 * The solver window's callback registry: which Maya callback ids were
 * registered for each callback type and node. The registry only keeps the
 * bookkeeping; adding and removing the Maya callbacks themselves is not
 * part of it.
 *
 * The registry is a dictionary of dictionaries of sets that, like Python's
 * `defaultdict`, creates an empty entry for every key it is asked about.
 * Python dictionaries list their keys in insertion order, so the class keeps
 * that order beside the maps.
 */
module MayaCallbacks {
  import opened Wrappers

  /** A node's uuid, or None for callbacks that are not about a node. */
  type NodeUuid = Option<string>

  /** A Maya callback id. */
  type CallbackId = int

  const TypeNewScene := "new_scene"
  const TypeSelectionChanged := "selection_changed"
  const TypeAttribute := "attribute"
  const TypeCollection := "collection"
  const TypeMarker := "marker"
  const TypeLine := "line"
  const TypeList := [TypeNewScene, TypeSelectionChanged, TypeAttribute, TypeMarker, TypeLine, TypeCollection]

  predicate Distinct<T(==)>(s: seq<T>)
  {
    forall i, j :: 0 <= i < j < |s| ==> s[i] != s[j]
  }

  /** The registry's contents: callback type, then node, then callback ids. */
  type Table = map<string, map<NodeUuid, set<CallbackId>>>

  /** The ids registered for a type and node; no entry means none. */
  function Lookup(tab: Table, t: string, n: NodeUuid): set<CallbackId>
  {
    if t in tab && n in tab[t] then tab[t][n] else {}
  }

  /** Every id registered under any type and node. */
  function AllIds(tab: Table): set<CallbackId>
  {
    set t, n, i | t in tab && n in tab[t] && i in tab[t][n] :: i
  }

  /** Reading `callbacks[t]`: an empty node table appears for a new type. */
  function TouchType(tab: Table, t: string): (r: Table)
    ensures t in r
  {
    if t in tab then tab else tab[t := map[]]
  }

  /** Reading `callbacks[t][n]`: an empty id set appears for a new type or node. */
  function TouchNode(tab: Table, t: string, n: NodeUuid): (r: Table)
    ensures t in r && n in r[t]
  {
    var tt := TouchType(tab, t);
    if n in tt[t] then tt else tt[t := tt[t][n := {}]]
  }

  /** `add_node_ids`: the new ids join the ones already there. */
  function Added(tab: Table, t: string, n: NodeUuid, ids: set<CallbackId>): Table
  {
    var tt := TouchNode(tab, t, n);
    tt[t := tt[t][n := tt[t][n] + ids]]
  }

  /** `remove_type_node_ids`: the entry is set to the empty set. */
  function Removed(tab: Table, t: string, n: NodeUuid): Table
  {
    var tt := TouchNode(tab, t, n);
    tt[t := tt[t][n := {}]]
  }

  /** Membership in AllIds, spelled out. */
  lemma AllIdsMember(tab: Table, i: CallbackId)
    ensures i in AllIds(tab) <==> exists t, n :: i in Lookup(tab, t, n)
  {
    if i in AllIds(tab) {
      var t, n :| t in tab && n in tab[t] && i in tab[t][n];
      assert i in Lookup(tab, t, n);
    }
    if exists t, n :: i in Lookup(tab, t, n) {
      var t, n :| i in Lookup(tab, t, n);
      assert t in tab && n in tab[t] && i in tab[t][n];
    }
  }

  /** Asking about an entry creates it empty and registers nothing. */
  lemma TouchKeepsIds(tab: Table, t: string, n: NodeUuid)
    ensures forall t', n' :: Lookup(TouchNode(tab, t, n), t', n') == Lookup(tab, t', n')
    ensures AllIds(TouchNode(tab, t, n)) == AllIds(tab)
  {
    var r := TouchNode(tab, t, n);
    forall i
      ensures i in AllIds(r) <==> i in AllIds(tab)
    {
      AllIdsMember(r, i);
      AllIdsMember(tab, i);
      if i in AllIds(r) {
        var t', n' :| i in Lookup(r, t', n');
        assert i in Lookup(tab, t', n');
      }
      if i in AllIds(tab) {
        var t', n' :| i in Lookup(tab, t', n');
        assert i in Lookup(r, t', n');
      }
    }
  }

  /** Adding unions the ids into the one entry and leaves every other entry alone. */
  lemma AddedEntries(tab: Table, t: string, n: NodeUuid, ids: set<CallbackId>)
    ensures Lookup(Added(tab, t, n, ids), t, n) == Lookup(tab, t, n) + ids
    ensures forall t', n' :: (t', n') != (t, n) ==> Lookup(Added(tab, t, n, ids), t', n') == Lookup(tab, t', n')
  {
    TouchKeepsIds(tab, t, n);
  }

  /** After adding, the registry holds exactly the old ids and the new ones. */
  lemma AddedAllIds(tab: Table, t: string, n: NodeUuid, ids: set<CallbackId>)
    ensures AllIds(Added(tab, t, n, ids)) == AllIds(tab) + ids
  {
    var r := Added(tab, t, n, ids);
    AddedEntries(tab, t, n, ids);
    forall i
      ensures i in AllIds(r) <==> i in AllIds(tab) + ids
    {
      AllIdsMember(r, i);
      AllIdsMember(tab, i);
      if i in ids {
        assert i in Lookup(r, t, n);
      }
      if i in AllIds(r) {
        var t', n' :| i in Lookup(r, t', n');
        if (t', n') != (t, n) {
          assert i in Lookup(tab, t', n');
        }
      }
    }
  }

  /** Removing empties the one entry, leaves every other entry alone and never adds an id. */
  lemma RemovedEntries(tab: Table, t: string, n: NodeUuid)
    ensures Lookup(Removed(tab, t, n), t, n) == {}
    ensures forall t', n' :: (t', n') != (t, n) ==> Lookup(Removed(tab, t, n), t', n') == Lookup(tab, t', n')
    ensures AllIds(Removed(tab, t, n)) <= AllIds(tab)
  {
    var r := Removed(tab, t, n);
    TouchKeepsIds(tab, t, n);
    forall i | i in AllIds(r)
      ensures i in AllIds(tab)
    {
      AllIdsMember(r, i);
      AllIdsMember(tab, i);
      var t', n' :| i in Lookup(r, t', n');
      assert i in Lookup(tab, t', n');
    }
  }

  /** A `type_has_node` question after adding a non-empty set is answered yes. */
  lemma AddThenHasNode(tab: Table, t: string, n: NodeUuid, ids: set<CallbackId>)
    requires ids != {}
    ensures |Lookup(Added(tab, t, n, ids), t, n)| > 0
    ensures |Lookup(Removed(Added(tab, t, n, ids), t, n), t, n)| == 0
  {
    AddedEntries(tab, t, n, ids);
    RemovedEntries(Added(tab, t, n, ids), t, n);
  }

  /** The ids under some of a type's nodes. */
  function NodeIds(tab: Table, t: string, ns: seq<NodeUuid>): set<CallbackId>
  {
    if |ns| == 0 then {} else NodeIds(tab, t, ns[..|ns| - 1]) + Lookup(tab, t, ns[|ns| - 1])
  }

  /** The ids under some types, each walked through its nodes in order. */
  function TypeIds(tab: Table, order: map<string, seq<NodeUuid>>, ts: seq<string>): set<CallbackId>
  {
    if |ts| == 0 then {}
    else
      var t := ts[|ts| - 1];
      TypeIds(tab, order, ts[..|ts| - 1]) + NodeIds(tab, t, if t in order then order[t] else [])
  }

  lemma {:induction false} NodeIdsMember(tab: Table, t: string, ns: seq<NodeUuid>, i: CallbackId)
    ensures i in NodeIds(tab, t, ns) <==> exists k :: 0 <= k < |ns| && i in Lookup(tab, t, ns[k])
  {
    if |ns| > 0 {
      var init := ns[..|ns| - 1];
      NodeIdsMember(tab, t, init, i);
      if exists k :: 0 <= k < |ns| && i in Lookup(tab, t, ns[k]) {
        var k :| 0 <= k < |ns| && i in Lookup(tab, t, ns[k]);
        if k < |ns| - 1 {
          assert ns[k] == init[k];
        }
      }
      if exists k :: 0 <= k < |init| && i in Lookup(tab, t, init[k]) {
        var k :| 0 <= k < |init| && i in Lookup(tab, t, init[k]);
        assert init[k] == ns[k];
      }
    }
  }

  /** The key order the class keeps beside its table. */
  ghost predicate Ordered(tab: Table, types: seq<string>, order: map<string, seq<NodeUuid>>)
  {
    Distinct(types)
    && (forall t :: t in tab <==> t in types)
    && (forall t :: t in tab ==> t in order && Distinct(order[t]) && forall n :: n in tab[t] <==> n in order[t])
  }

  lemma {:induction false} TypeIdsMember(tab: Table, order: map<string, seq<NodeUuid>>, ts: seq<string>, i: CallbackId)
    requires forall t :: t in ts ==> t in order && forall n :: n in order[t] ==> t in tab && n in tab[t]
    ensures i in TypeIds(tab, order, ts) ==> i in AllIds(tab)
    ensures (forall t :: t in tab ==> t in ts && forall n :: n in tab[t] ==> n in order[t]) ==>
      (i in AllIds(tab) ==> i in TypeIds(tab, order, ts))
  {
    AllIdsMember(tab, i);
    if |ts| > 0 {
      var t := ts[|ts| - 1];
      var init := ts[..|ts| - 1];
      assert forall u :: u in init ==> u in ts;
      TypeIdsMember(tab, order, init, i);
      NodeIdsMember(tab, t, order[t], i);
      if i in NodeIds(tab, t, order[t]) {
        var k :| 0 <= k < |order[t]| && i in Lookup(tab, t, order[t][k]);
      }
      if (forall u :: u in tab ==> u in ts && forall n :: n in tab[u] ==> n in order[u]) && i in AllIds(tab) {
        var u, n :| i in Lookup(tab, u, n);
        assert u in tab && n in tab[u];
        var k :| 0 <= k < |order[u]| && order[u][k] == n;
        if u == t {
          assert i in NodeIds(tab, t, order[t]);
        } else {
          assert u in init;
          assert forall v :: v in tab ==> v in init || v == t;
          NodeIdsMember(tab, u, order[u], i);
          OtherTypesIds(tab, order, init, u, i);
        }
      }
    }
  }

  /** An id under a node of one of the walked types is collected. */
  lemma {:induction false} OtherTypesIds(tab: Table, order: map<string, seq<NodeUuid>>, ts: seq<string>, u: string, i: CallbackId)
    requires u in ts && u in order && i in NodeIds(tab, u, order[u])
    ensures i in TypeIds(tab, order, ts)
  {
    if ts[|ts| - 1] != u {
      OtherTypesIds(tab, order, ts[..|ts| - 1], u, i);
    }
  }

  /** Walking every type and then every node collects exactly the registered ids. */
  lemma TypeIdsIsAllIds(tab: Table, types: seq<string>, order: map<string, seq<NodeUuid>>)
    requires Ordered(tab, types, order)
    ensures TypeIds(tab, order, types) == AllIds(tab)
  {
    forall i
      ensures i in TypeIds(tab, order, types) <==> i in AllIds(tab)
    {
      TypeIdsMember(tab, order, types, i);
    }
  }

  /** Overwriting an existing entry keeps the key order valid. */
  lemma SetEntryKeepsOrdered(tab: Table, types: seq<string>, order: map<string, seq<NodeUuid>>, t: string, n: NodeUuid, ids: set<CallbackId>)
    requires Ordered(tab, types, order)
    requires t in tab && n in tab[t]
    ensures Ordered(tab[t := tab[t][n := ids]], types, order)
  {
    var r := tab[t := tab[t][n := ids]];
    assert r.Keys == tab.Keys;
    assert r[t].Keys == tab[t].Keys;
  }

  /** The type order after reading `callbacks[t]`: a new type goes to the end. */
  function TouchTypes(tab: Table, types: seq<string>, t: string): (r: seq<string>)
    ensures t in tab ==> r == types
    ensures t !in tab ==> |r| == |types| + 1 && r[..|types|] == types && r[|types|] == t
  {
    if t in tab then types else types + [t]
  }

  /** The node orders after reading `callbacks[t][n]`: a new node goes to the end of its type's order. */
  function TouchOrder(tab: Table, order: map<string, seq<NodeUuid>>, t: string, n: NodeUuid)
    : (r: map<string, seq<NodeUuid>>)
    ensures forall u :: u in order && u != t ==> u in r && r[u] == order[u]
    ensures t in r && r[t] == (if t in tab && t in order then order[t] else [])
      + (if t in tab && n in tab[t] then [] else [n])
  {
    var prior := if t in tab && t in order then order[t] else [];
    order[t := if t in tab && n in tab[t] then prior else prior + [n]]
  }

  /** A sequence without repeats stays so when a new element joins its end. */
  lemma DistinctSnoc<T>(s: seq<T>, x: T)
    requires Distinct(s) && x !in s
    ensures Distinct(s + [x])
  {
    var r := s + [x];
    forall i, j | 0 <= i < j < |r|
      ensures r[i] != r[j]
    {
      if j == |s| {
        assert r[i] in s;
      }
    }
  }

  /** A new type joins the end of the key order with no nodes. */
  lemma AddTypeKeepsOrdered(tab: Table, types: seq<string>, order: map<string, seq<NodeUuid>>, t: string)
    requires Ordered(tab, types, order) && t !in tab
    ensures Ordered(tab[t := map[]], types + [t], order[t := []])
  {
    DistinctSnoc(types, t);
  }

  /** Reading an entry keeps the key order in step with the registry. */
  lemma TouchKeepsOrdered(tab: Table, types: seq<string>, order: map<string, seq<NodeUuid>>, t: string, n: NodeUuid)
    requires Ordered(tab, types, order)
    ensures Ordered(TouchNode(tab, t, n), TouchTypes(tab, types, t), TouchOrder(tab, order, t, n))
  {
    var r := TouchNode(tab, t, n);
    var ord := TouchOrder(tab, order, t, n);
    if t !in tab {
      DistinctSnoc(types, t);
    }
    var prior := if t in tab then order[t] else [];
    if !(t in tab && n in tab[t]) {
      DistinctSnoc(prior, n);
    }
    assert forall u :: u in r && u != t ==> u in tab && r[u] == tab[u] && ord[u] == order[u];
    assert forall m :: m in r[t] <==> m in ord[t];
  }

  /** `CallbackManager`: the registry and the order of its keys. */
  class CallbackManager {
    var types: seq<string>
    var order: map<string, seq<NodeUuid>>
    var callbacks: Table

    ghost predicate Valid()
      reads this
    {
      Ordered(callbacks, types, order)
    }

    constructor ()
      ensures Valid()
      ensures callbacks == map[] && types == []
    {
      types := [];
      order := map[];
      callbacks := map[];
    }

    /** The `defaultdict` read of `callbacks[t][n]`. */
    method Touch(t: string, n: NodeUuid)
      requires Valid()
      modifies this
      ensures Valid()
      ensures callbacks == TouchNode(old(callbacks), t, n)
      ensures types == TouchTypes(old(callbacks), old(types), t)
      ensures order == TouchOrder(old(callbacks), old(order), t, n)
    {
      TouchKeepsOrdered(callbacks, types, order, t, n);
      types, order, callbacks := TouchTypes(callbacks, types, t), TouchOrder(callbacks, order, t, n), TouchNode(callbacks, t, n);
    }

    /** `get_all_ids`: every registered id, walked type by type and node by node. */
    method GetAllIds() returns (r: set<CallbackId>)
      requires Valid()
      ensures r == AllIds(callbacks)
    {
      r := {};
      var a := 0;
      while a < |types|
        invariant 0 <= a <= |types|
        invariant r == TypeIds(callbacks, order, types[..a])
      {
        var t := types[a];
        assert t in callbacks;
        var ns := order[t];
        var b := 0;
        ghost var before := r;
        while b < |ns|
          invariant 0 <= b <= |ns|
          invariant r == before + NodeIds(callbacks, t, ns[..b])
        {
          assert ns[..b + 1][..b] == ns[..b];
          r := r + Lookup(callbacks, t, ns[b]);
          b := b + 1;
        }
        assert ns[..b] == ns;
        assert types[..a + 1][..a] == types[..a];
        a := a + 1;
      }
      assert types[..a] == types;
      TypeIdsIsAllIds(callbacks, types, order);
    }

    /** `add_node_ids`: the given ids join the entry's. */
    method AddNodeIds(t: string, n: NodeUuid, ids: seq<CallbackId>)
      requires Valid()
      requires t in TypeList
      modifies this
      ensures Valid()
      ensures callbacks == Added(old(callbacks), t, n, set i | i in ids)
    {
      var added := set i | i in ids;
      Touch(t, n);
      SetEntryKeepsOrdered(callbacks, types, order, t, n, callbacks[t][n] + added);
      callbacks := callbacks[t := callbacks[t][n := callbacks[t][n] + added]];
    }

    /** `get_types`: the types asked about so far, in order of first use. */
    method GetTypes() returns (r: seq<string>)
      requires Valid()
      ensures r == types
      ensures Distinct(r) && forall t :: t in r <==> t in callbacks
    {
      r := types;
    }

    /** `get_type_nodes`: the type's nodes, in order of first use; asking adds the type. */
    method GetTypeNodes(t: string) returns (r: seq<NodeUuid>)
      requires Valid()
      modifies this
      ensures Valid()
      ensures callbacks == TouchType(old(callbacks), t)
      ensures Distinct(r) && forall n :: n in r <==> n in callbacks[t]
    {
      if t !in callbacks {
        AddTypeKeepsOrdered(callbacks, types, order, t);
        types := types + [t];
        order := order[t := []];
        callbacks := callbacks[t := map[]];
      }
      r := order[t];
    }

    /** `get_type_node_ids`: the entry's ids; asking adds the entry. */
    method GetTypeNodeIds(t: string, n: NodeUuid) returns (r: set<CallbackId>)
      requires Valid()
      modifies this
      ensures Valid()
      ensures r == Lookup(old(callbacks), t, n)
      ensures callbacks == TouchNode(old(callbacks), t, n)
    {
      Touch(t, n);
      r := callbacks[t][n];
    }

    /** `remove_type_node_ids`: the entry becomes empty. */
    method RemoveTypeNodeIds(t: string, n: NodeUuid)
      requires Valid()
      modifies this
      ensures Valid()
      ensures callbacks == Removed(old(callbacks), t, n)
    {
      Touch(t, n);
      SetEntryKeepsOrdered(callbacks, types, order, t, n, {});
      callbacks := callbacks[t := callbacks[t][n := {}]];
    }

    /** `type_has_node`: whether any id is registered for the type and node. */
    method TypeHasNode(t: string, n: NodeUuid) returns (r: bool)
      requires Valid()
      modifies this
      ensures Valid()
      ensures r <==> |Lookup(old(callbacks), t, n)| > 0
      ensures callbacks == TouchNode(old(callbacks), t, n)
    {
      var ids := GetTypeNodeIds(t, n);
      r := |ids| > 0;
    }
  }
}
