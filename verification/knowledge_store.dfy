/** The graph store: two tables changed row by row. Every operation is proved to leave the tables as the
    state machine of `Knowledge` says, so what that keeps, the store keeps. */
module KnowledgeStore {
  import opened Prelude
  import opened Knowledge
  import Impact

  lemma OneMore(g: Graph, units: seq<Unit>, i: nat)
    requires i < |units|
    ensures Sync(g, units[i..]) == Sync(SyncUnit(g, units[i]), units[i + 1..])
    ensures SyncReport(g, units[i..]) == Counted(g, units[i]).Plus(SyncReport(SyncUnit(g, units[i]), units[i + 1..]))
  {
    assert units[i..][1..] == units[i + 1..];
  }

  class Store {
    var nodes: map<NodeId, Node>
    var edges: map<Key, Link>

    constructor ()
      ensures Now() == EMPTY
    {
      nodes, edges := map[], map[];
    }

    function Now(): Graph reads this { Graph(nodes, edges) }

    /** Flags the edges of `id` that are not flagged yet, and counts them. */
    method FlagEdgesOf(id: NodeId, change: (Hash, Hash)) returns (flagged: nat)
      modifies this`edges
      ensures edges == FlagEdges(old(edges), id, change)
      ensures flagged == |set k | k in old(edges) && Touches(k, id) && old(edges)[k].flag.None?|
    {
      ghost var before := edges;
      ghost var hit: set<Key> := {};
      var todo := edges.Keys;
      flagged := 0;
      while todo != {}
        invariant todo <= before.Keys && edges.Keys == before.Keys
        invariant forall k :: k in todo ==> edges[k] == before[k]
        invariant forall k :: k in before && k !in todo ==> edges[k] == FlagEdges(before, id, change)[k]
        invariant hit == (set k | k in before && k !in todo && Touches(k, id) && before[k].flag.None?) && flagged == |hit|
      {
        var k :| k in todo;
        todo := todo - {k};
        if Touches(k, id) && edges[k].flag.None? {
          edges := edges[k := edges[k].(flag := Some(change))];
          hit, flagged := hit + {k}, flagged + 1;
        }
      }
      assert hit == set k | k in before && Touches(k, id) && before[k].flag.None?;
    }

    /** The units found in one file; the report counts what is new, what changed and which edges that made
        stale. */
    method SyncFile(units: seq<Unit>) returns (added: nat, changed: nat, flagged: nat)
      modifies this
      ensures Now() == Sync(old(Now()), units)
      ensures Report(added, changed, flagged) == SyncReport(old(Now()), units)
    {
      ghost var before := Now();
      added, changed, flagged := 0, 0, 0;
      assert units[0..] == units;
      for i := 0 to |units|
        invariant Sync(Now(), units[i..]) == Sync(before, units)
        invariant Report(added, changed, flagged).Plus(SyncReport(Now(), units[i..])) == SyncReport(before, units)
      {
        var a, c, f := SyncNext(units, i);
        added, changed, flagged := added + a, changed + c, flagged + f;
      }
    }

    method SyncNext(units: seq<Unit>, i: nat) returns (added: nat, changed: nat, flagged: nat)
      requires i < |units|
      modifies this
      ensures Sync(Now(), units[i + 1..]) == Sync(old(Now()), units[i..])
      ensures Report(added, changed, flagged).Plus(SyncReport(Now(), units[i + 1..])) == SyncReport(old(Now()), units[i..])
    {
      OneMore(Now(), units, i);
      added, changed, flagged := SyncOne(units[i]);
    }

    method SyncOne(u: Unit) returns (added: nat, changed: nat, flagged: nat)
      modifies this
      ensures Now() == SyncUnit(old(Now()), u)
      ensures Report(added, changed, flagged) == Counted(old(Now()), u)
    {
      var id := CodeUnit(u.kind, u.name);
      var prev := if id in nodes then nodes[id].contentHash else None;
      added, changed, flagged := 0, 0, 0;
      if prev.None? { added := 1; } else if prev.value != u.hash { changed := 1; }
      ghost var before := Now();
      assert prev == Known(before, u);
      assert MadeStale(before, u) == if Changes(before, u) then (set k | k in edges && Touches(k, id) && edges[k].flag.None?) else {};
      nodes := nodes[id := (if id in nodes then nodes[id] else Fresh(u.name)).(contentHash := Some(u.hash))];
      if prev.Some? && prev.value != u.hash { flagged := FlagEdgesOf(id, (prev.value, u.hash)); }
    }

    /** The one code unit a target names, if there is exactly one. */
    method Resolve(t: Target) returns (id: Option<NodeId>)
      ensures id == Resolution(Now(), t)
    {
      ghost var r := Resolution(Now(), t);
      match t
      case Exact(kind, name) =>
        id := if LegalKind(kind) && CodeUnit(kind, name) in nodes then Some(CodeUnit(kind, name)) else None;
      case Bare(title) =>
        var todo := nodes.Keys;
        var found: set<NodeId> := {};
        while todo != {}
          invariant todo <= nodes.Keys && found == set i | i in nodes && i !in todo && i.CodeUnit? && nodes[i].title == title
        {
          var i :| i in todo;
          todo := todo - {i};
          if i.CodeUnit? && nodes[i].title == title { found := found + {i}; }
        }
        assert found == Titled(Now(), title);
        id := None;
        if |found| == 1 {
          var i :| i in found;
          OneElement(found, i);
          id := Some(i);
        } else {
          NotSingle(found);
        }
    }

    method LinkRequirement(req: string, t: Target) returns (ok: bool)
      modifies this
      ensures (Now(), ok) == LinkTo(old(Now()), req, t)
    {
      ghost var before := Now();
      if Requirement(req) !in nodes { nodes := nodes[Requirement(req) := Fresh(req)]; }
      assert Now() == WithRequirement(before, req);
      var code := Resolve(t);
      if code.None? || nodes[code.value].contentHash.None? {
        assert (Now(), false) == LinkTo(before, req, t);
        return false;
      }
      var link := Link(nodes[code.value].contentHash, None);
      edges := edges[Key(code.value, Requirement(req), Implements) := link];
      edges := edges[Key(Requirement(req), code.value, ImplementedBy) := link];
      ok := true;
      assert (Now(), true) == LinkTo(before, req, t);
    }

    method AddCandidate(kind: string, name: string, text: string, by_: string) returns (ok: bool)
      modifies this
      ensures (Now(), ok) == Knowledge.AddCandidate(old(Now()), kind, name, text, by_)
    {
      if !LegalKind(kind) { return false; }
      var id := CodeUnit(kind, name);
      if id in nodes {
        nodes := nodes[id := nodes[id].(drivingText := Some(text), createdBy := Some(by_))];
      } else {
        nodes := nodes[id := Fresh(name).(drivingText := Some(text), createdBy := Some(by_))];
      }
      ok := true;
    }

    method AddRelation(src: NodeId, dst: NodeId)
      modifies this
      ensures Now() == Knowledge.AddRelation(old(Now()), src, dst)
    {
      var k := Key(src, dst, RelatesTo);
      if k !in edges { edges := edges[k := Link(None, None)]; }
    }

    method Confirm(id: NodeId) returns (ok: bool)
      modifies this
      ensures (Now(), ok) == Knowledge.Confirm(old(Now()), id)
    {
      ok := id in nodes;
      if ok { nodes := nodes[id := nodes[id].(confirmed := true)]; }
    }

    /** Confirms what nobody has decided about, and says which. */
    method ConfirmAll() returns (ids: set<NodeId>)
      modifies this
      ensures Now() == Knowledge.ConfirmAll(old(Now())) && ids == set id | id in old(nodes) && Unreviewed(old(Now()), id)
    {
      ghost var before := Now();
      var todo := nodes.Keys;
      ids := {};
      while todo != {}
        invariant todo <= before.nodes.Keys && nodes.Keys == before.nodes.Keys && edges == before.edges
        invariant forall id :: id in todo ==> nodes[id] == before.nodes[id]
        invariant forall id :: id in before.nodes && id !in todo ==> nodes[id] == Knowledge.ConfirmAll(before).nodes[id]
        invariant ids == set id | id in before.nodes && id !in todo && Unreviewed(before, id)
      {
        var id :| id in todo;
        todo := todo - {id};
        if id.CodeUnit? && !nodes[id].confirmed && !nodes[id].waived {
          nodes := nodes[id := nodes[id].(confirmed := true)];
          ids := ids + {id};
        }
      }
    }

    method DeleteNode(id: NodeId) returns (ok: bool)
      modifies this
      ensures (Now(), ok) == Delete(old(Now()), id)
    {
      ok := id in nodes;
      if !ok { return; }
      ghost var before := edges;
      var todo := edges.Keys;
      while todo != {}
        invariant todo <= edges.Keys <= before.Keys
        invariant forall k :: k in edges ==> edges[k] == before[k]
        invariant forall k :: k in before && k !in todo ==> (k in edges <==> k.src != id && k.dst != id)
        invariant nodes == old(nodes)
      {
        var k :| k in todo;
        todo := todo - {k};
        if k.src == id || k.dst == id { edges := edges - {k}; }
      }
      assert edges == map k | k in before && k.src != id && k.dst != id :: before[k];
      nodes := nodes - {id};
    }

    method EditDrivingText(id: NodeId, text: string) returns (ok: bool)
      modifies this
      ensures (Now(), ok) == Edit(old(Now()), id, text)
    {
      ok := id in nodes;
      if ok { nodes := nodes[id := nodes[id].(drivingText := Some(text), locked := false)]; }
    }

    method WaiveNode(id: NodeId, reason: string) returns (ok: bool)
      modifies this
      ensures (Now(), ok) == Waive(old(Now()), id, reason)
    {
      ok := id in nodes && !Blank(reason);
      if ok { nodes := nodes[id := nodes[id].(waived := true, waiveReason := Some(reason))]; }
    }

    method UnwaiveNode(id: NodeId) returns (ok: bool)
      modifies this
      ensures (Now(), ok) == Unwaive(old(Now()), id)
    {
      ok := id in nodes;
      if ok { nodes := nodes[id := nodes[id].(waived := false, waiveReason := None)]; }
    }

    method LockUnitsAfterSync(ids: seq<NodeId>) returns (ok: bool, locked: seq<NodeId>)
      modifies this
      ensures (Now(), ok) == Lock(old(Now()), ids)
      ensures forall id :: id in locked ==> id in nodes && nodes[id].locked && nodes[id].materialized == nodes[id].contentHash
    {
      ghost var whole := Lock(Now(), ids);
      locked := [];
      for i := 0 to |ids|
        invariant whole == Lock(Now(), ids[i..])
        invariant forall id :: id in locked ==> id in nodes && nodes[id].locked && nodes[id].materialized == nodes[id].contentHash
      {
        assert ids[i..][1..] == ids[i + 1..];
        var id := ids[i];
        if id !in nodes { return false, locked; }
        if nodes[id].contentHash.Some? {
          nodes := nodes[id := nodes[id].(locked := true, materialized := nodes[id].contentHash)];
          locked := locked + [id];
        }
      }
      assert ids[|ids|..] == [];
      ok := true;
    }

    /** The rows of the edge table, in some order. */
    method EdgeRows() returns (es: seq<Impact.Edge>)
      ensures Impact.Lists(es, edges)
    {
      var todo := edges.Keys;
      es := [];
      while todo != {}
        invariant todo <= edges.Keys
        invariant forall e :: e in es <==> Impact.AsKey(e) in edges && Impact.AsKey(e) !in todo && edges[Impact.AsKey(e)].flag == e.flag
        invariant forall i, j :: 0 <= i < j < |es| ==> Impact.AsKey(es[i]) != Impact.AsKey(es[j])
      {
        var k :| k in todo;
        var e := Impact.Edge(k.src, k.dst, k.kind, edges[k].flag);
        assert forall i :: 0 <= i < |es| ==> es[i] in es;
        es, todo := es + [e], todo - {k};
      }
    }

    /** What a change of `start` may concern. It always succeeds on a graph without edges to nowhere, and a
        report that is complete shows there was none within reach. */
    method ImpactOf(start: NodeId) returns (r: Option<Impact.Outcome>, ghost es: seq<Impact.Edge>)
      ensures r.None? <==> start !in nodes
      ensures Impact.Lists(es, edges)
      ensures r.Some? && Anchored(Now()) ==> r.value.Found?
      ensures r.Some? && r.value.Found? && !r.value.report.partial ==>
                Impact.Complete(es, start, r.value.report.hits) && Impact.Ball(es, start, Impact.MAX_DEPTH) <= nodes.Keys
      ensures r.Some? && r.value.Found? && r.value.report.partial ==> Impact.Nearest(es, start, r.value.report.hits)
    {
      var rows := EdgeRows();
      es := rows;
      if start !in nodes { return None, es; }
      var found := Impact.Run(rows, nodes.Keys, start);
      if Anchored(Now()) { Impact.NothingMissing(es, Now(), start, Impact.MAX_DEPTH); }
      if found.Found? && !found.report.partial { Impact.CompleteMissesNothing(es, nodes.Keys, start, found.report.hits); }
      r := Some(found);
    }

    /** The units generating picks up: all of them, or the one asked for. */
    method GeneratableUnits(target: Option<NodeId>) returns (ids: set<NodeId>)
      ensures ids == set id | id in nodes && Generatable(Now(), id) && (target.None? || id == target.value)
    {
      var todo := nodes.Keys;
      ids := {};
      while todo != {}
        invariant todo <= nodes.Keys
        invariant ids == set id | id in nodes && id !in todo && Generatable(Now(), id) && (target.None? || id == target.value)
      {
        var id :| id in todo;
        todo := todo - {id};
        var n := nodes[id];
        if id.CodeUnit? && n.confirmed && !n.waived && !n.locked && (target.None? || id == target.value)
           && n.drivingText.Some? && !Blank(n.drivingText.value) {
          ids := ids + {id};
        }
      }
    }
  }

  lemma NotSingle<T(!new)>(s: set<T>)
    requires |s| != 1
    ensures forall i :: s != {i}
  {
    forall i: T ensures s != {i} { assert |{i}| == 1; }
  }

  lemma OneElement<T>(s: set<T>, x: T)
    requires |s| == 1 && x in s
    ensures s == {x}
  {
    assert |s - {x}| == 0;
  }
}
