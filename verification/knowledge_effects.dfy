/** Which operation changes what, read field by field: every field of every node, and every edge, after
    any operation. */
module KnowledgeEffects {
  import opened Prelude
  import opened Knowledge

  function TitleOf(id: NodeId): string {
    match id case CodeUnit(_, name) => name case Requirement(name) => name case OtherNode(name) => name
  }

  /** A node as it was, or as it is made when there was none. */
  function Was(g: Graph, id: NodeId): Node { if id in g.nodes then g.nodes[id] else Fresh(TitleOf(id)) }

  /** `hash` is the one that the last unit called `id` in `units` brings. */
  ghost predicate LastHash(units: seq<Unit>, id: NodeId, hash: Hash) {
    exists n: nat ::
      n < |units| && units[n].hash == hash && id == CodeUnit(units[n].kind, units[n].name)
      && forall j :: n < j < |units| ==> id != CodeUnit(units[j].kind, units[j].name)
  }

  ghost predicate Listed(units: seq<Unit>, id: NodeId) { exists u :: u in units && id == CodeUnit(u.kind, u.name) }

  /** The lock reaches `id`, which has a hash: all ids up to it are nodes. */
  ghost predicate Locks(g: Graph, ids: seq<NodeId>, id: NodeId) {
    Was(g, id).contentHash.Some?
    && exists n: nat :: n < |ids| && ids[n] == id && forall j :: 0 <= j <= n ==> ids[j] in g.nodes
  }

  predicate Drafts(op: Op, id: NodeId) { op.OpAddCandidate? && LegalKind(op.kind) && id == CodeUnit(op.kind, op.name) }

  ghost predicate LocksBy(g: Graph, op: Op, id: NodeId) { op.OpLock? && Locks(g, op.ids, id) }

  ghost predicate SyncsBy(op: Op, id: NodeId) { op.OpSync? && Listed(op.units, id) }

  /** A node is there if it was and is not deleted, or is made: by a sync, as a requirement, or as a
      candidate of a legal kind. */
  ghost predicate Exists(g: Graph, op: Op, id: NodeId) {
    (id in g.nodes && op != OpDelete(id)) || SyncsBy(op, id) || (op.OpLink? && id == Requirement(op.req)) || Drafts(op, id)
  }

  /** What becomes of a node that is there: `a` before, `b` after. */
  ghost predicate Becomes(g: Graph, op: Op, id: NodeId, a: Node, b: Node) {
    b.title == a.title
    && (if SyncsBy(op, id) then b.contentHash.Some? && LastHash(op.units, id, b.contentHash.value) else b.contentHash == a.contentHash)
    && (b.drivingText == if Drafts(op, id) || (op.OpEdit? && op.id == id) then Some(op.text) else a.drivingText)
    && (b.createdBy == if Drafts(op, id) then Some(op.by_) else a.createdBy)
    && (b.confirmed <==> a.confirmed || op == OpConfirm(id) || (op.OpConfirmAll? && id.CodeUnit? && !a.waived))
    && (b.locked <==> (a.locked && !(op.OpEdit? && op.id == id)) || LocksBy(g, op, id))
    && (b.materialized == if LocksBy(g, op, id) then a.contentHash else a.materialized)
    && (if op.OpWaive? && op.id == id && !Blank(op.reason) then b.waived && b.waiveReason == Some(op.reason)
        else if op == OpUnwaive(id) then !b.waived && b.waiveReason.None?
        else b.waived == a.waived && b.waiveReason == a.waiveReason)
  }

  ghost predicate Effect(g: Graph, op: Op, id: NodeId, h: Graph) {
    (id in h.nodes <==> Exists(g, op, id)) && (id in h.nodes ==> Becomes(g, op, id, Was(g, id), h.nodes[id]))
  }

  /** The whole account of nodes. */
  lemma WhatChanges(g: Graph, op: Op, id: NodeId)
    ensures Effect(g, op, id, Step(g, op))
  {
    match op
    case OpSync(units) => SyncChanges(g, units, id);
    case OpLock(ids) => LockChanges(g, ids, id);
    case OpLink(req, t) => LinkChanges(g, req, t, id);
    case OpAddCandidate(_, _, _, _) => TextChanges(g, op, id);
    case OpEdit(_, _) => TextChanges(g, op, id);
    case OpWaive(_, _) => ScopeChanges(g, op, id);
    case OpUnwaive(_) => ScopeChanges(g, op, id);
    case _ =>
  }

  lemma TextChanges(g: Graph, op: Op, id: NodeId)
    requires op.OpAddCandidate? || op.OpEdit?
    ensures Effect(g, op, id, Step(g, op))
  {}

  lemma ScopeChanges(g: Graph, op: Op, id: NodeId)
    requires op.OpWaive? || op.OpUnwaive?
    ensures Effect(g, op, id, Step(g, op))
  {}

  lemma LinkChanges(g: Graph, req: string, t: Target, id: NodeId)
    ensures Effect(g, OpLink(req, t), id, LinkTo(g, req, t).0)
  {
    var h := WithRequirement(g, req);
    assert LinkTo(g, req, t).0.nodes == h.nodes;
  }

  /** A synced unit ends with the hash that was listed last for it. */
  lemma {:induction false} SyncHash(g: Graph, units: seq<Unit>, id: NodeId)
    ensures id in Sync(g, units).nodes <==> id in g.nodes || Listed(units, id)
    ensures id in Sync(g, units).nodes ==>
              var b := Sync(g, units).nodes[id];
              b == Was(g, id).(contentHash := b.contentHash)
              && if Listed(units, id) then b.contentHash.Some? && LastHash(units, id, b.contentHash.value)
                 else b.contentHash == Was(g, id).contentHash
    decreases units
  {
    if units != [] {
      var h, rest := SyncUnit(g, units[0]), units[1..];
      SyncHash(h, rest, id);
      ListedSplit(units, id);
      if id in Sync(g, units).nodes { LastSplit(units, id); }
    }
  }

  lemma ListedSplit(units: seq<Unit>, id: NodeId)
    requires units != []
    ensures Listed(units, id) <==> id == CodeUnit(units[0].kind, units[0].name) || Listed(units[1..], id)
  {
    if id == CodeUnit(units[0].kind, units[0].name) { assert units[0] in units; }
  }

  lemma LastSplit(units: seq<Unit>, id: NodeId)
    requires units != []
    ensures forall hash :: LastHash(units[1..], id, hash) ==> LastHash(units, id, hash)
    ensures id == CodeUnit(units[0].kind, units[0].name) && !Listed(units[1..], id) ==> LastHash(units, id, units[0].hash)
  {
    var rest := units[1..];
    forall hash | LastHash(rest, id, hash) ensures LastHash(units, id, hash) {
      var n: nat :| n < |rest| && rest[n].hash == hash && id == CodeUnit(rest[n].kind, rest[n].name)
                    && forall j :: n < j < |rest| ==> id != CodeUnit(rest[j].kind, rest[j].name);
      assert units[n + 1] == rest[n];
      forall j | n + 1 < j < |units| ensures id != CodeUnit(units[j].kind, units[j].name) { assert units[j] == rest[j - 1]; }
    }
    if id == CodeUnit(units[0].kind, units[0].name) && !Listed(rest, id) {
      forall j | 0 < j < |units| ensures id != CodeUnit(units[j].kind, units[j].name) { assert units[j] == rest[j - 1] && rest[j - 1] in rest; }
    }
  }

  lemma SyncChanges(g: Graph, units: seq<Unit>, id: NodeId)
    ensures Effect(g, OpSync(units), id, Sync(g, units))
  {
    SyncHash(g, units, id);
  }

  lemma LocksSplit(g: Graph, h: Graph, ids: seq<NodeId>, id: NodeId)
    requires ids != [] && ids[0] in g.nodes && h.nodes.Keys == g.nodes.Keys && Was(h, id).contentHash == Was(g, id).contentHash
    ensures Locks(g, ids, id) <==> (id == ids[0] && Was(g, id).contentHash.Some?) || Locks(h, ids[1..], id)
  {
    var rest := ids[1..];
    if Locks(h, rest, id) {
      var n: nat :| n < |rest| && rest[n] == id && forall j :: 0 <= j <= n ==> rest[j] in h.nodes;
      assert ids[n + 1] == id;
      forall j | 0 <= j <= n + 1 ensures ids[j] in g.nodes { if j > 0 { assert ids[j] == rest[j - 1]; } }
    }
    if Locks(g, ids, id) && id != ids[0] {
      var n: nat :| n < |ids| && ids[n] == id && forall j :: 0 <= j <= n ==> ids[j] in g.nodes;
      assert rest[n - 1] == id;
      forall j | 0 <= j <= n - 1 ensures rest[j] in h.nodes { assert rest[j] == ids[j + 1]; }
    }
  }

  lemma {:induction false} LockEffect(g: Graph, ids: seq<NodeId>, id: NodeId)
    ensures id in Lock(g, ids).0.nodes <==> id in g.nodes
    ensures id in g.nodes ==>
              var a := g.nodes[id];
              Lock(g, ids).0.nodes[id] == if Locks(g, ids, id) then a.(locked := true, materialized := a.contentHash) else a
    decreases ids
  {
    if ids != [] && ids[0] in g.nodes {
      var node := g.nodes[ids[0]];
      var h := if node.contentHash.Some? then Put(g, ids[0], node.(locked := true, materialized := node.contentHash)) else g;
      LockEffect(h, ids[1..], id);
      LocksSplit(g, h, ids, id);
    }
  }

  lemma LockChanges(g: Graph, ids: seq<NodeId>, id: NodeId)
    ensures Effect(g, OpLock(ids), id, Lock(g, ids).0)
  {
    LockEffect(g, ids, id);
    if id !in g.nodes && Locks(g, ids, id) { assert false; }
  }

  // ---------------------------------------------------------------- edges

  /** The two edges of a link. */
  predicate Joins(k: Key, code: NodeId, req: string) {
    k == Key(code, Requirement(req), Implements) || k == Key(Requirement(req), code, ImplementedBy)
  }

  /** The unit that a link is made to: the one its target names, if it has a hash. */
  ghost predicate LinksTo(g: Graph, op: Op, code: NodeId) {
    op.OpLink? && Resolves(WithRequirement(g, op.req), op.target, code) && code in g.nodes && g.nodes[code].contentHash.Some?
  }

  /** A node at one end is deleted; deleting what is no node does nothing. */
  predicate Detaches(g: Graph, op: Op, k: Key) { op.OpDelete? && op.id in g.nodes && (op.id == k.src || op.id == k.dst) }

  /** The edges after an operation: those that were there, less a deleted node's, and the ones related or
      linked. A link is made, or made again, at its unit's present hash and not stale. */
  lemma WhichEdges(g: Graph, op: Op, k: Key)
    ensures var h := Step(g, op); var linked := exists code :: LinksTo(g, op, code) && Joins(k, code, op.req);
            (k in h.edges <==>
                (k in g.edges && !Detaches(g, op, k)) || (op == OpAddRelation(k.src, k.dst) && k.kind.RelatesTo?) || linked)
            && (k in h.edges && k !in g.edges && !linked ==> h.edges[k] == Link(None, None))
            && (forall code :: LinksTo(g, op, code) && Joins(k, code, op.req) ==> k in h.edges && h.edges[k] == Link(g.nodes[code].contentHash, None))
            && (k in h.edges && k in g.edges && !linked && !op.OpSync? ==> h.edges[k] == g.edges[k])
  {
    match op
    case OpSync(units) => SyncKeepsAnchors(g, units);
    case OpLock(ids) => LockKeepsEdges(g, ids);
    case OpLink(req, t) => LinkEdges(g, req, t, k);
    case _ =>
  }

  lemma LinkEdges(g: Graph, req: string, t: Target, k: Key)
    ensures var op := OpLink(req, t); var h := LinkTo(g, req, t).0;
            (k in h.edges <==> k in g.edges || exists code :: LinksTo(g, op, code) && Joins(k, code, req))
            && (forall code :: LinksTo(g, op, code) && Joins(k, code, req) ==> k in h.edges && h.edges[k] == Link(g.nodes[code].contentHash, None))
            && (k in g.edges && (forall code :: LinksTo(g, op, code) ==> !Joins(k, code, req)) ==> h.edges[k] == g.edges[k])
  {
    var op, mid := OpLink(req, t), WithRequirement(g, req);
    var r := Resolution(mid, t);
    forall code ensures LinksTo(g, op, code) <==> r == Some(code) && mid.nodes[code].contentHash.Some? {
      assert r == Some(code) <==> Resolves(mid, t, code);
    }
    if r.Some? && mid.nodes[r.value].contentHash.Some? { assert LinksTo(g, op, r.value); }
  }

  /** A link that a sync makes stale says from which hash, the one it was recorded at, to which, one that
      the sync brings for its unit. */
  lemma {:induction false} FlagSays(g: Graph, units: seq<Unit>, k: Key)
    requires Good(g) && k in g.edges && !k.kind.RelatesTo? && g.edges[k].flag.None?
    requires k in Sync(g, units).edges && Sync(g, units).edges[k].flag.Some?
    ensures var (from, to) := Sync(g, units).edges[k].flag.value;
            Some(from) == g.edges[k].hashAtLink && from != to
            && exists u :: u in units && u.hash == to && CodeUnit(u.kind, u.name) == if k.kind.Implements? then k.src else k.dst
    decreases units
  {
    var h := SyncUnit(g, units[0]);
    SyncUnitGood(g, units[0]);
    assert LinkOk(g, k);
    if h.edges[k].flag.None? {
      FlagSays(h, units[1..], k);
      var u :| u in units[1..] && u.hash == Sync(g, units).edges[k].flag.value.1
               && CodeUnit(u.kind, u.name) == if k.kind.Implements? then k.src else k.dst;
      assert u in units;
    } else {
      FlagStays(h, units[1..], k);
      assert units[0] in units;
    }
  }

  lemma {:induction false} FlagStays(g: Graph, units: seq<Unit>, k: Key)
    requires k in g.edges && g.edges[k].flag.Some?
    ensures k in Sync(g, units).edges && Sync(g, units).edges[k] == g.edges[k]
    decreases units
  {
    if units != [] { FlagStays(SyncUnit(g, units[0]), units[1..], k); }
  }
}
