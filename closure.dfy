/**
 * The closure steps of the `map` request over the temporary tables
 * `bbox_nodes`, `bbox_ways` and `bbox_relations`: pulling in the nodes the
 * matched ways reference, seeding the relations that have a matched node or
 * way as a member, and then adding parent relations pass by pass until a
 * pass inserts nothing. Each temporary table is the set of ids of the store
 * rows it copies; the SQL's DISTINCT, NOT EXISTS and GROUP BY make every
 * inserted id new and inserted once, which is what a set records.
 */
module Closure {
  import opened Osm

  // ---------------------------------------------------------------- the set operations

  /**
   * The node references of the ways in `ways`: the rows the stored function
   * `unnest_bbox_way_nodes()` puts into `bbox_way_nodes`, taken here to be
   * every entry of the `nodes` array of every matched way.
   */
  function WayNodeRefs(st: Store, ways: set<int>): (r: set<int>)
    ensures forall w, n :: w in ways && w in st.ways && n in st.ways[w].nds ==> n in r
    ensures forall n :: n in r ==> exists w :: w in ways && w in st.ways && n in st.ways[w].nds
  {
    set w, n | w in ways && w in st.ways && n in st.ways[w].nds :: n
  }

  /** `bbox_nodes` after the way-node backfill: the existing referenced nodes added. */
  function WithWayNodes(st: Store, nodes: set<int>, ways: set<int>): set<int> {
    nodes + (WayNodeRefs(st, ways) * st.nodes.Keys)
  }

  /** Every existing node some way in `ways` references is in `nodes`. */
  ghost predicate WayNodesIncluded(st: Store, ways: set<int>, nodes: set<int>) {
    forall w, n :: w in ways && w in st.ways && n in st.ways[w].nds && n in st.nodes ==> n in nodes
  }

  /** A member that seeds its relation: a matched node or a matched way. */
  predicate Seeds(m: Member, nodes: set<int>, ways: set<int>) {
    (m.memberType == 'N' && m.ref in nodes) || (m.memberType == 'W' && m.ref in ways)
  }

  /** The relations that have a member seeding them. */
  function SeedRelations(st: Store, nodes: set<int>, ways: set<int>): set<int> {
    set r | r in st.relations && exists m :: m in st.relations[r].members && Seeds(m, nodes, ways)
  }

  /** A relation member of type 'R' pointing into `rels`. */
  predicate ChildIn(m: Member, rels: set<int>) {
    m.memberType == 'R' && m.ref in rels
  }

  /** The rows one pass of the parent backfill inserts: relations outside `rels` with an 'R' member inside. */
  function NewParents(st: Store, rels: set<int>): (r: set<int>)
    ensures r !! rels
    ensures r <= st.relations.Keys
  {
    set p | p in st.relations && p !in rels && exists m :: m in st.relations[p].members && ChildIn(m, rels)
  }

  /** No relation of the store has an 'R' member in `rels` without being in `rels` itself. */
  ghost predicate ParentClosed(st: Store, rels: set<int>) {
    forall p, m :: p in st.relations && m in st.relations[p].members && ChildIn(m, rels) ==> p in rels
  }

  /** A pass inserts nothing exactly when the set is closed under parents. */
  lemma NoNewParentsIffClosed(st: Store, rels: set<int>)
    ensures NewParents(st, rels) == {} <==> ParentClosed(st, rels)
  {
    if NewParents(st, rels) == {} {
      forall p, m | p in st.relations && m in st.relations[p].members && ChildIn(m, rels)
        ensures p in rels
      {
        assert p !in rels ==> p in NewParents(st, rels);
      }
    } else {
      var p := SomeMember(NewParents(st, rels));
      var m :| m in st.relations[p].members && ChildIn(m, rels);
    }
  }

  /** Adding a non-empty set of outside relations leaves fewer relations outside. */
  lemma FewerOutside(st: Store, rels: set<int>, added: set<int>)
    requires added != {} && added <= st.relations.Keys && added !! rels
    ensures |st.relations.Keys - (rels + added)| < |st.relations.Keys - rels|
  {
    var outside := st.relations.Keys - rels;
    assert st.relations.Keys - (rels + added) == outside - added;
    var p := SomeMember(added);
    assert p in outside;
    assert outside - added <= outside - {p};
    assert |outside - {p}| == |outside| - 1;
    SubsetCard(outside - added, outside - {p});
  }

  /** Helper: a non-empty set has a member. */
  lemma SomeMember(s: set<int>) returns (x: int)
    requires s != {}
    ensures x in s
  {
    assert (forall y :: y !in s) ==> s == {};
    x :| x in s;
  }

  /** Helper: a subset is no larger. */
  lemma SubsetCard(a: set<int>, b: set<int>)
    requires a <= b
    ensures |a| <= |b|
  {
    assert b == a + (b - a);
  }

  /**
   * The relations after the parent backfill started from `rels`: passes
   * repeated until one adds nothing. Every pass adds at least one relation
   * of the store, so the passes end even when relations contain each other.
   */
  function ParentClosure(st: Store, rels: set<int>): (r: set<int>)
    ensures rels <= r
    ensures r - rels <= st.relations.Keys
    ensures NewParents(st, r) == {}
    decreases |st.relations.Keys - rels|
  {
    var added := NewParents(st, rels);
    if added == {} then rels
    else
      FewerOutside(st, rels, added);
      ParentClosure(st, rels + added)
  }

  /** The number of passes the parent backfill makes from `rels`, the last inserting nothing. */
  function ParentPasses(st: Store, rels: set<int>): (n: nat)
    ensures 1 <= n <= |st.relations.Keys - rels| + 1
    decreases |st.relations.Keys - rels|
  {
    var added := NewParents(st, rels);
    if added == {} then 1
    else
      FewerOutside(st, rels, added);
      1 + ParentPasses(st, rels + added)
  }

  /** The closure is the least parent-closed superset of the start: nothing is added without cause. */
  lemma {:induction false} ParentClosureLeast(st: Store, rels: set<int>, s: set<int>)
    requires rels <= s
    requires ParentClosed(st, s)
    ensures ParentClosure(st, rels) <= s
    decreases |st.relations.Keys - rels|
  {
    var added := NewParents(st, rels);
    if added != {} {
      forall p | p in added
        ensures p in s
      {
        var m :| m in st.relations[p].members && ChildIn(m, rels);
        assert ChildIn(m, s);
      }
      FewerOutside(st, rels, added);
      ParentClosureLeast(st, rels + added, s);
    }
  }

  /** Closing a closed set changes nothing. */
  lemma ParentClosureIdempotent(st: Store, rels: set<int>)
    ensures ParentClosure(st, ParentClosure(st, rels)) == ParentClosure(st, rels)
  {
  }

  /** A larger start gives a larger closure. */
  lemma ParentClosureMonotone(st: Store, rels: set<int>, more: set<int>)
    requires rels <= more
    ensures ParentClosure(st, rels) <= ParentClosure(st, more)
  {
    NoNewParentsIffClosed(st, ParentClosure(st, more));
    ParentClosureLeast(st, rels, ParentClosure(st, more));
  }

  /**
   * A relation is in the closure exactly when it is in the start or is
   * reached by a chain of 'R' memberships from it: one step of that chain.
   */
  lemma ParentClosureStep(st: Store, rels: set<int>, p: int, m: Member)
    requires p in st.relations && m in st.relations[p].members
    requires ChildIn(m, ParentClosure(st, rels))
    ensures p in ParentClosure(st, rels)
  {
    NoNewParentsIffClosed(st, ParentClosure(st, rels));
  }

  // ---------------------------------------------------------------- the temporary tables

  /** The three temporary tables of one request, over the store they copy rows from. */
  class TempTables {
    const store: Store
    var bboxNodes: set<int>
    var bboxWays: set<int>
    var bboxRelations: set<int>

    /** Every row of a temporary table is a row of the store. */
    ghost predicate Valid()
      reads this
    {
      bboxNodes <= store.nodes.Keys && bboxWays <= store.ways.Keys && bboxRelations <= store.relations.Keys
    }

    /**
     * The tables as the spatial selections leave them; the selections are
     * outside this model, so their results are given.
     */
    constructor (st: Store, nodes: set<int>, ways: set<int>, relations: set<int>)
      requires nodes <= st.nodes.Keys && ways <= st.ways.Keys && relations <= st.relations.Keys
      ensures Valid()
      ensures store == st && bboxNodes == nodes && bboxWays == ways && bboxRelations == relations
    {
      store := st;
      bboxNodes := nodes;
      bboxWays := ways;
      bboxRelations := relations;
    }

    /**
     * `backfill_way_nodes`: the distinct node references of the matched ways
     * that are not matched yet, then the store's rows for them inserted; the
     * result is the number of rows inserted.
     */
    method BackfillWayNodes() returns (inserted: nat)
      requires Valid()
      modifies this
      ensures Valid()
      ensures bboxNodes == WithWayNodes(store, old(bboxNodes), bboxWays)
      ensures inserted == |bboxNodes - old(bboxNodes)|
      ensures bboxWays == old(bboxWays) && bboxRelations == old(bboxRelations)
    {
      var wayNodes := WayNodeRefs(store, bboxWays);
      var missing := set n | n in wayNodes && n !in bboxNodes;
      var added := set n | n in missing && n in store.nodes;
      assert bboxNodes + added == WithWayNodes(store, bboxNodes, bboxWays);
      assert (bboxNodes + added) - bboxNodes == added;
      bboxNodes := bboxNodes + added;
      inserted := |added|;
    }

    /**
     * `backfill_relations`: `bbox_relations` created as the relations with a
     * member of type 'N' among the matched nodes or of type 'W' among the
     * matched ways, each once.
     */
    method BackfillRelations()
      requires Valid()
      modifies this
      ensures Valid()
      ensures bboxRelations == SeedRelations(store, bboxNodes, bboxWays)
      ensures bboxNodes == old(bboxNodes) && bboxWays == old(bboxWays)
    {
      var viaNodes := set r, m | r in store.relations && m in store.relations[r].members &&
        m.memberType == 'N' && m.ref in bboxNodes :: r;
      var viaWays := set r, m | r in store.relations && m in store.relations[r].members &&
        m.memberType == 'W' && m.ref in bboxWays :: r;
      bboxRelations := viaNodes + viaWays;
      assert bboxRelations == SeedRelations(store, bboxNodes, bboxWays) by {
        forall r | r in SeedRelations(store, bboxNodes, bboxWays)
          ensures r in viaNodes + viaWays
        {
          var m :| m in store.relations[r].members && Seeds(m, bboxNodes, bboxWays);
        }
      }
    }

    /**
     * One INSERT of `backfill_parent_relations`: the relations outside
     * `bbox_relations` with an 'R' member inside it, each once; the result is
     * the cursor's row count.
     */
    method InsertParentRelations() returns (rowcount: nat)
      requires Valid()
      modifies this
      ensures Valid()
      ensures bboxRelations == old(bboxRelations) + NewParents(store, old(bboxRelations))
      ensures rowcount == |NewParents(store, old(bboxRelations))|
      ensures bboxNodes == old(bboxNodes) && bboxWays == old(bboxWays)
    {
      var rids := set r, m | r in store.relations && m in store.relations[r].members &&
        m.memberType == 'R' && m.ref in bboxRelations && r !in bboxRelations :: r;
      assert rids == NewParents(store, bboxRelations) by {
        forall r | r in NewParents(store, bboxRelations)
          ensures r in rids
        {
          var m :| m in store.relations[r].members && ChildIn(m, bboxRelations);
        }
      }
      bboxRelations := bboxRelations + rids;
      rowcount := |rids|;
    }

    /**
     * `backfill_parent_relations`: INSERT passes until one reports zero rows.
     * The result is the number of passes made.
     */
    method BackfillParentRelations() returns (passes: nat)
      requires Valid()
      modifies this
      ensures Valid()
      ensures bboxRelations == ParentClosure(store, old(bboxRelations))
      ensures passes == ParentPasses(store, old(bboxRelations))
      ensures bboxNodes == old(bboxNodes) && bboxWays == old(bboxWays)
    {
      passes := 0;
      while true
        invariant Valid()
        invariant ParentClosure(store, bboxRelations) == ParentClosure(store, old(bboxRelations))
        invariant passes + ParentPasses(store, bboxRelations) == ParentPasses(store, old(bboxRelations))
        invariant bboxNodes == old(bboxNodes) && bboxWays == old(bboxWays)
        decreases |store.relations.Keys - bboxRelations|
      {
        ghost var before := bboxRelations;
        var rows := InsertParentRelations();
        passes := passes + 1;
        if rows == 0 {
          assert NewParents(store, before) == {};
          return;
        }
        FewerOutside(store, before, NewParents(store, before));
      }
    }

    /**
     * The closure steps of the `map` request, in the source's order:
     * relations seeded from the spatially matched nodes and ways, their
     * parents closed, and only then the way nodes backfilled.
     */
    method CloseMap()
      requires Valid()
      modifies this
      ensures Valid()
      ensures bboxRelations == MapRelations(store, old(bboxNodes), old(bboxWays))
      ensures bboxNodes == WithWayNodes(store, old(bboxNodes), old(bboxWays))
      ensures bboxWays == old(bboxWays)
    {
      BackfillRelations();
      var _ := BackfillParentRelations();
      var _ := BackfillWayNodes();
    }
  }

  /** The relations the `map` request returns for the spatially matched nodes and ways. */
  function MapRelations(st: Store, nodes: set<int>, ways: set<int>): set<int> {
    ParentClosure(st, SeedRelations(st, nodes, ways))
  }

  // ---------------------------------------------------------------- properties

  /** After the node backfill every existing node a matched way references is matched. */
  lemma WayNodesBackfilled(st: Store, nodes: set<int>, ways: set<int>)
    ensures WayNodesIncluded(st, ways, WithWayNodes(st, nodes, ways))
  {
  }

  /**
   * The node backfill adds nothing without cause: its result is inside any
   * superset of the matched nodes that already holds the referenced nodes,
   * and only nodes of the store are added.
   */
  lemma WayNodesLeast(st: Store, nodes: set<int>, ways: set<int>, s: set<int>)
    requires nodes <= s && WayNodesIncluded(st, ways, s)
    ensures WithWayNodes(st, nodes, ways) <= s
    ensures WithWayNodes(st, nodes, ways) - nodes <= st.nodes.Keys
  {
    forall n | n in WithWayNodes(st, nodes, ways)
      ensures n in s
    {
      if n !in nodes {
        var w :| w in ways && w in st.ways && n in st.ways[w].nds;
      }
    }
  }

  /** The backfilled node set is a fixpoint: the same ways add no further node. */
  lemma WayNodesIdempotent(st: Store, nodes: set<int>, ways: set<int>)
    ensures WithWayNodes(st, WithWayNodes(st, nodes, ways), ways) == WithWayNodes(st, nodes, ways)
  {
  }

  /** Each seeded relation has a seeding member, and a relation with one is seeded. */
  lemma SeedRelationsMembers(st: Store, nodes: set<int>, ways: set<int>, r: int)
    requires r in st.relations
    ensures r in SeedRelations(st, nodes, ways) <==>
      exists i :: 0 <= i < |st.relations[r].members| && Seeds(st.relations[r].members[i], nodes, ways)
  {
    if r in SeedRelations(st, nodes, ways) {
      var m :| m in st.relations[r].members && Seeds(m, nodes, ways);
      var i :| 0 <= i < |st.relations[r].members| && st.relations[r].members[i] == m;
    }
  }

  /** Seeding looks only at 'N' and 'W' members: a relation whose members are all 'R' is never seeded. */
  lemma RelationMembersDoNotSeed(st: Store, nodes: set<int>, ways: set<int>, r: int)
    requires r in st.relations
    requires forall i :: 0 <= i < |st.relations[r].members| ==> st.relations[r].members[i].memberType == 'R'
    ensures r !in SeedRelations(st, nodes, ways)
  {
  }

  /**
   * Relations 1 and 2 contain each other; relation 3 has a member 4 that is
   * not in the store.
   */
  const CycleStore := Store(map[], map[],
    map[1 := Relation(1, 1, 1, "", [], [Member('R', 2, "")]),
        2 := Relation(1, 1, 1, "", [], [Member('R', 1, "")]),
        3 := Relation(1, 1, 1, "", [], [Member('R', 4, "")])])

  lemma CyclePairClosed()
    ensures ParentClosed(CycleStore, {1, 2})
  {
    assert CycleStore.relations.Keys == {1, 2, 3};
    assert CycleStore.relations[3].members == [Member('R', 4, "")];
  }

  /** The first pass's rows are in the closure. */
  lemma FirstPassInClosure(st: Store, rels: set<int>)
    ensures rels + NewParents(st, rels) <= ParentClosure(st, rels)
  {
  }

  /** Closing from relation 2 of the cycle stops, after two passes, with both relations and without 3. */
  lemma CycleCloses()
    ensures ParentClosure(CycleStore, {2}) == {1, 2}
    ensures ParentPasses(CycleStore, {2}) == 2
  {
    var st := CycleStore;
    CyclePairClosed();
    ParentClosureLeast(st, {2}, {1, 2});
    assert ChildIn(st.relations[1].members[0], {2});
    assert 1 in NewParents(st, {2});
    FirstPassInClosure(st, {2});
    assert NewParents(st, {2}) == {1};
    assert {2} + {1} == {1, 2};
    NoNewParentsIffClosed(st, {1, 2});
  }

  /**
   * The order of `map`: a node pulled in for a matched way does not seed
   * the relation it belongs to, which seeding after the backfill would include.
   */
  lemma NodeBackfillComesLast()
    ensures var st := Store(map[1 := Node(1, 1, 1, "", "0", "0", [])],
      map[10 := Way(1, 1, 1, "", [], [1])],
      map[100 := Relation(1, 1, 1, "", [], [Member('N', 1, "")])]);
      1 in WithWayNodes(st, {}, {10}) &&
      100 !in MapRelations(st, {}, {10}) &&
      100 in SeedRelations(st, WithWayNodes(st, {}, {10}), {10})
  {
    var st := Store(map[1 := Node(1, 1, 1, "", "0", "0", [])],
      map[10 := Way(1, 1, 1, "", [], [1])],
      map[100 := Relation(1, 1, 1, "", [], [Member('N', 1, "")])]);
    assert 1 in st.ways[10].nds;
    assert SeedRelations(st, {}, {10}) == {};
    assert NewParents(st, {}) == {};
    assert 1 in WithWayNodes(st, {}, {10});
    assert Seeds(st.relations[100].members[0], WithWayNodes(st, {}, {10}), {10});
  }
}
