/** The knowledge graph as a state: nodes, edges, and what each operation makes of them. */
module Knowledge {
  import opened Prelude

  type Hash = string

  /** Ids are prefixed strings in the store; the prefix decides the case here. */
  datatype NodeId = CodeUnit(kind: string, name: string) | Requirement(name: string) | OtherNode(id: string)

  datatype Node = Node(title: string, contentHash: Option<Hash>, drivingText: Option<string>, createdBy: Option<string>,
                       confirmed: bool, locked: bool, waived: bool, waiveReason: Option<string>, materialized: Option<Hash>)

  datatype EdgeKind = Implements | ImplementedBy | RelatesTo
  datatype Key = Key(src: NodeId, dst: NodeId, kind: EdgeKind)

  /** The code's hash when the link was recorded, and the change that made it stale. */
  datatype Link = Link(hashAtLink: Option<Hash>, flag: Option<(Hash, Hash)>)

  datatype Graph = Graph(nodes: map<NodeId, Node>, edges: map<Key, Link>)

  const EMPTY := Graph(map[], map[])

  function Fresh(title: string): Node { Node(title, None, None, None, false, false, false, None, None) }

  predicate LegalKind(kind: string) { kind == "fn" || kind == "struct" || kind == "enum" || kind == "screen" }

  // ---------------------------------------------------------------- operations

  datatype Unit = Unit(kind: string, name: string, hash: Hash)

  /** The edges that a change of `id` makes stale. */
  predicate Touches(k: Key, id: NodeId) {
    (k.kind.Implements? && k.src == id) || (k.kind.ImplementedBy? && k.dst == id)
  }

  function FlagEdges(edges: map<Key, Link>, id: NodeId, change: (Hash, Hash)): (r: map<Key, Link>)
    ensures r.Keys == edges.Keys
  {
    map k | k in edges :: if Touches(k, id) && edges[k].flag.None? then edges[k].(flag := Some(change)) else edges[k]
  }

  function SyncUnit(g: Graph, u: Unit): Graph {
    var id := CodeUnit(u.kind, u.name);
    var prev := if id in g.nodes then g.nodes[id].contentHash else None;
    var node := (if id in g.nodes then g.nodes[id] else Fresh(u.name)).(contentHash := Some(u.hash));
    Graph(g.nodes[id := node],
          if prev.Some? && prev.value != u.hash then FlagEdges(g.edges, id, (prev.value, u.hash)) else g.edges)
  }

  function Sync(g: Graph, units: seq<Unit>): Graph
    decreases units
  {
    if units == [] then g else Sync(SyncUnit(g, units[0]), units[1..])
  }

  /** How a code unit is named: with its kind, or by a title that has to be unique. */
  datatype Target = Exact(kind: string, name: string) | Bare(title: string)

  function Titled(g: Graph, title: string): set<NodeId> {
    set id | id in g.nodes && id.CodeUnit? && g.nodes[id].title == title
  }

  ghost predicate Resolves(g: Graph, t: Target, id: NodeId) {
    match t
    case Exact(kind, name) => LegalKind(kind) && id == CodeUnit(kind, name) && id in g.nodes
    case Bare(title) => Titled(g, title) == {id}
  }

  /** The one code unit a target names, if there is exactly one. */
  ghost function Resolution(g: Graph, t: Target): (r: Option<NodeId>)
    ensures r.Some? ==> r.value.CodeUnit? && r.value in g.nodes
    ensures forall id :: r == Some(id) <==> Resolves(g, t, id)
  {
    if id :| Resolves(g, t, id) then
      OnlyResolution(g, t, id);
      Some(id)
    else None
  }

  lemma OnlyResolution(g: Graph, t: Target, id: NodeId)
    requires Resolves(g, t, id)
    ensures id.CodeUnit? && id in g.nodes
    ensures forall i :: Resolves(g, t, i) ==> i == id
  {
    if t.Bare? { assert id in Titled(g, t.title); }
  }

  function WithRequirement(g: Graph, req: string): Graph {
    if Requirement(req) in g.nodes then g else g.(nodes := g.nodes[Requirement(req) := Fresh(req)])
  }

  /** Both directions of one relationship, at the code's present hash and unflagged. */
  function AddLink(g: Graph, code: NodeId, req: string, hash: Hash): Graph {
    var link := Link(Some(hash), None);
    g.(edges := g.edges[Key(code, Requirement(req), Implements) := link][Key(Requirement(req), code, ImplementedBy) := link])
  }

  /** The requirement is recorded whether or not the target resolves. */
  ghost function LinkTo(g: Graph, req: string, t: Target): (Graph, bool) {
    var h := WithRequirement(g, req);
    var code := Resolution(h, t);
    if code.None? || h.nodes[code.value].contentHash.None? then (h, false)
    else (AddLink(h, code.value, req, h.nodes[code.value].contentHash.value), true)
  }

  function AddCandidate(g: Graph, kind: string, name: string, text: string, by_: string): (Graph, bool) {
    var id := CodeUnit(kind, name);
    if !LegalKind(kind) then (g, false)
    else
      var node := (if id in g.nodes then g.nodes[id] else Fresh(name)).(drivingText := Some(text), createdBy := Some(by_));
      (g.(nodes := g.nodes[id := node]), true)
  }

  function AddRelation(g: Graph, src: NodeId, dst: NodeId): Graph {
    var k := Key(src, dst, RelatesTo);
    if k in g.edges then g else g.(edges := g.edges[k := Link(None, None)])
  }

  function Put(g: Graph, id: NodeId, node: Node): Graph { g.(nodes := g.nodes[id := node]) }

  function Confirm(g: Graph, id: NodeId): (Graph, bool) {
    if id !in g.nodes then (g, false) else (Put(g, id, g.nodes[id].(confirmed := true)), true)
  }

  predicate Unreviewed(g: Graph, id: NodeId) {
    id in g.nodes && id.CodeUnit? && !g.nodes[id].confirmed && !g.nodes[id].waived
  }

  function ConfirmAll(g: Graph): Graph {
    g.(nodes := map id | id in g.nodes :: if Unreviewed(g, id) then g.nodes[id].(confirmed := true) else g.nodes[id])
  }

  function Delete(g: Graph, id: NodeId): (Graph, bool) {
    if id !in g.nodes then (g, false)
    else (Graph(g.nodes - {id}, map k | k in g.edges && k.src != id && k.dst != id :: g.edges[k]), true)
  }

  function Edit(g: Graph, id: NodeId, text: string): (Graph, bool) {
    if id !in g.nodes then (g, false) else (Put(g, id, g.nodes[id].(drivingText := Some(text), locked := false)), true)
  }

  predicate Blank(s: string) { forall i :: 0 <= i < |s| ==> s[i] == ' ' || s[i] == '\n' || s[i] == '\t' || s[i] == '\r' }

  function Waive(g: Graph, id: NodeId, reason: string): (Graph, bool) {
    if id !in g.nodes || Blank(reason) then (g, false)
    else (Put(g, id, g.nodes[id].(waived := true, waiveReason := Some(reason))), true)
  }

  function Unwaive(g: Graph, id: NodeId): (Graph, bool) {
    if id !in g.nodes then (g, false) else (Put(g, id, g.nodes[id].(waived := false, waiveReason := None)), true)
  }

  /** Locks each unit that has a hash; an id that is not a node stops with an error, the ones before it
      locked. */
  function Lock(g: Graph, ids: seq<NodeId>): (Graph, bool)
    decreases ids
  {
    if ids == [] then (g, true)
    else if ids[0] !in g.nodes then (g, false)
    else
      var node := g.nodes[ids[0]];
      Lock(if node.contentHash.Some? then Put(g, ids[0], node.(locked := true, materialized := node.contentHash)) else g, ids[1..])
  }

  /** What generating can start from: reviewed, in scope, not locked, and with something to go on. */
  predicate Generatable(g: Graph, id: NodeId) {
    id in g.nodes && id.CodeUnit? && g.nodes[id].confirmed && !g.nodes[id].waived && !g.nodes[id].locked
    && g.nodes[id].drivingText.Some? && !Blank(g.nodes[id].drivingText.value)
  }

  // ---------------------------------------------------------------- what every state keeps

  function Twin(k: Key): Key {
    Key(k.dst, k.src, match k.kind case Implements => ImplementedBy case ImplementedBy => Implements case RelatesTo => RelatesTo)
  }

  /** A requirement link exists in both directions with the same hash and flag, belongs to a code unit
      with a hash, and while unflagged was recorded at that unit's present hash. */
  ghost predicate LinkOk(g: Graph, k: Key) {
    k in g.edges && !k.kind.RelatesTo? ==>
      var code := if k.kind.Implements? then k.src else k.dst;
      Twin(k) in g.edges && g.edges[Twin(k)] == g.edges[k] && code in g.nodes && g.nodes[code].contentHash.Some?
      && g.edges[k].hashAtLink.Some? && (g.edges[k].flag.None? ==> g.edges[k].hashAtLink == g.nodes[code].contentHash)
  }

  ghost predicate NodeOk(g: Graph, id: NodeId) {
    id in g.nodes && g.nodes[id].locked ==> g.nodes[id].materialized.Some?
  }

  ghost predicate Good(g: Graph) {
    (forall k :: LinkOk(g, k)) && (forall id :: NodeOk(g, id))
  }

  datatype Op =
    | OpSync(units: seq<Unit>)
    | OpLink(req: string, target: Target)
    | OpAddCandidate(kind: string, name: string, text: string, by_: string)
    | OpAddRelation(src: NodeId, dst: NodeId)
    | OpConfirm(id: NodeId)
    | OpConfirmAll
    | OpDelete(id: NodeId)
    | OpEdit(id: NodeId, text: string)
    | OpWaive(id: NodeId, reason: string)
    | OpUnwaive(id: NodeId)
    | OpLock(ids: seq<NodeId>)

  ghost function Step(g: Graph, op: Op): Graph {
    match op
    case OpSync(units) => Sync(g, units)
    case OpLink(req, t) => LinkTo(g, req, t).0
    case OpAddCandidate(kind, name, text, by_) => AddCandidate(g, kind, name, text, by_).0
    case OpAddRelation(src, dst) => AddRelation(g, src, dst)
    case OpConfirm(id) => Confirm(g, id).0
    case OpConfirmAll => ConfirmAll(g)
    case OpDelete(id) => Delete(g, id).0
    case OpEdit(id, text) => Edit(g, id, text).0
    case OpWaive(id, reason) => Waive(g, id, reason).0
    case OpUnwaive(id) => Unwaive(g, id).0
    case OpLock(ids) => Lock(g, ids).0
  }

  ghost function Run(g: Graph, ops: seq<Op>): Graph
    decreases ops
  {
    if ops == [] then g else Run(Step(g, ops[0]), ops[1..])
  }

  /** Nodes and edges as before, but for node fields the links do not depend on. */
  ghost predicate SameHashes(g: Graph, h: Graph) {
    h.edges == g.edges && g.nodes.Keys <= h.nodes.Keys
    && forall id {:trigger h.nodes[id]} :: id in g.nodes ==> h.nodes[id].contentHash == g.nodes[id].contentHash
  }

  lemma LinksSurvive(g: Graph, h: Graph)
    requires SameHashes(g, h) && forall k :: LinkOk(g, k)
    ensures forall k :: LinkOk(h, k)
  {
    forall k ensures LinkOk(h, k) { assert LinkOk(g, k); }
  }

  lemma SyncUnitGood(g: Graph, u: Unit)
    requires Good(g)
    ensures Good(SyncUnit(g, u))
  {
    var h, id := SyncUnit(g, u), CodeUnit(u.kind, u.name);
    forall k ensures LinkOk(h, k) { assert LinkOk(g, k); assert Touches(k, id) == Touches(Twin(k), id); }
    forall i ensures NodeOk(h, i) { assert NodeOk(g, i); }
  }

  lemma {:induction false} SyncGood(g: Graph, units: seq<Unit>)
    requires Good(g)
    ensures Good(Sync(g, units))
    decreases units
  {
    if units != [] { SyncUnitGood(g, units[0]); SyncGood(SyncUnit(g, units[0]), units[1..]); }
  }

  lemma LinkGood(g: Graph, req: string, t: Target)
    requires Good(g)
    ensures Good(LinkTo(g, req, t).0)
  {
    var h := WithRequirement(g, req);
    LinksSurvive(g, h);
    forall i ensures NodeOk(h, i) { assert NodeOk(g, i); }
    if LinkTo(g, req, t).1 {
      var r := LinkTo(g, req, t).0;
      forall k ensures LinkOk(r, k) { assert LinkOk(h, k); }
      forall i ensures NodeOk(r, i) { assert NodeOk(h, i); }
    }
  }

  lemma DeleteGood(g: Graph, id: NodeId)
    requires Good(g)
    ensures Good(Delete(g, id).0)
  {
    var h := Delete(g, id).0;
    forall k ensures LinkOk(h, k) { assert LinkOk(g, k); }
    forall i ensures NodeOk(h, i) { assert NodeOk(g, i); }
  }

  lemma {:induction false} LockGood(g: Graph, ids: seq<NodeId>)
    requires Good(g)
    ensures Good(Lock(g, ids).0)
    decreases ids
  {
    if ids != [] && ids[0] in g.nodes {
      var node := g.nodes[ids[0]];
      var h := if node.contentHash.Some? then Put(g, ids[0], node.(locked := true, materialized := node.contentHash)) else g;
      LinksSurvive(g, h);
      forall i ensures NodeOk(h, i) { assert NodeOk(g, i); }
      LockGood(h, ids[1..]);
    }
  }

  lemma StepGood(g: Graph, op: Op)
    requires Good(g)
    ensures Good(Step(g, op))
  {
    match op
    case OpSync(units) => SyncGood(g, units);
    case OpLink(req, t) => LinkGood(g, req, t);
    case OpDelete(id) => DeleteGood(g, id);
    case OpLock(ids) => LockGood(g, ids);
    case OpAddRelation(src, dst) =>
      var h := Step(g, op);
      forall k ensures LinkOk(h, k) { assert LinkOk(g, k); }
      forall i ensures NodeOk(h, i) { assert NodeOk(g, i); }
    case _ =>
      var h := Step(g, op);
      LinksSurvive(g, h);
      forall i ensures NodeOk(h, i) { assert NodeOk(g, i); }
  }

  /** Whatever is done in whatever order, links come in agreeing pairs and an unflagged one is up to
      date. */
  lemma {:induction false} RunGood(g: Graph, ops: seq<Op>)
    requires Good(g)
    ensures Good(Run(g, ops))
    decreases ops
  {
    if ops != [] { StepGood(g, ops[0]); RunGood(Step(g, ops[0]), ops[1..]); }
  }

  lemma ReachableIsGood(ops: seq<Op>)
    ensures Good(Run(EMPTY, ops))
  {
    RunGood(EMPTY, ops);
  }

  // ---------------------------------------------------------------- who may change what

  /** A link goes stale only when its own code unit is synced at another hash. */
  lemma {:induction false} FlaggedBySync(g: Graph, units: seq<Unit>, k: Key)
    requires k in g.edges && g.edges[k].flag.None?
    requires k in Sync(g, units).edges && Sync(g, units).edges[k].flag.Some?
    ensures exists u :: u in units && Touches(k, CodeUnit(u.kind, u.name))
    decreases units
  {
    var h := SyncUnit(g, units[0]);
    if h.edges[k].flag.None? {
      FlaggedBySync(h, units[1..], k);
      var u :| u in units[1..] && Touches(k, CodeUnit(u.kind, u.name));
      assert u in units;
    } else {
      assert units[0] in units;
    }
  }

  lemma OnlySyncFlags(g: Graph, op: Op, k: Key)
    requires k in g.edges && g.edges[k].flag.None? && k in Step(g, op).edges && Step(g, op).edges[k].flag.Some?
    ensures op.OpSync? && exists u :: u in op.units && Touches(k, CodeUnit(u.kind, u.name))
  {
    if op.OpSync? { FlaggedBySync(g, op.units, k); }
    else if op.OpLock? { LockKeepsEdges(g, op.ids); }
  }

  lemma {:induction false} LockKeepsEdges(g: Graph, ids: seq<NodeId>)
    ensures Lock(g, ids).0.edges == g.edges
    ensures forall id :: id in g.nodes ==> id in Lock(g, ids).0.nodes && Lock(g, ids).0.nodes[id].drivingText == g.nodes[id].drivingText
    decreases ids
  {
    if ids != [] && ids[0] in g.nodes {
      var node := g.nodes[ids[0]];
      LockKeepsEdges(if node.contentHash.Some? then Put(g, ids[0], node.(locked := true, materialized := node.contentHash)) else g, ids[1..]);
    }
  }

  lemma {:induction false} SyncKeepsText(g: Graph, units: seq<Unit>, id: NodeId)
    requires id in g.nodes
    ensures id in Sync(g, units).nodes && Sync(g, units).nodes[id].drivingText == g.nodes[id].drivingText
    decreases units
  {
    if units != [] { SyncKeepsText(SyncUnit(g, units[0]), units[1..], id); }
  }

  /** The text of a locked unit changes in two ways only: an edit unlocks the unit; prompt mode's
      refinement leaves it locked with a text it was not made from, so generating passes it by. */
  lemma OnlyRefiningChangesLockedText(g: Graph, op: Op, id: NodeId)
    requires id in g.nodes && g.nodes[id].locked && id in Step(g, op).nodes
    requires Step(g, op).nodes[id].drivingText != g.nodes[id].drivingText
    ensures var n := Step(g, op).nodes[id];
            if n.locked then op.OpAddCandidate? && id == CodeUnit(op.kind, op.name) && n.drivingText == Some(op.text)
                             && n.materialized == g.nodes[id].materialized && !Generatable(Step(g, op), id)
            else op.OpEdit? && id == op.id && n.drivingText == Some(op.text)
  {
    if op.OpSync? { SyncKeepsText(g, op.units, id); }
    else if op.OpLock? { LockKeepsEdges(g, op.ids); }
  }

  // ---------------------------------------------------------------- edges to nowhere

  /** Both ends of every edge are nodes. */
  ghost predicate Anchored(g: Graph) { forall k :: k in g.edges ==> k.src in g.nodes && k.dst in g.nodes }

  lemma {:induction false} SyncKeepsAnchors(g: Graph, units: seq<Unit>)
    ensures Sync(g, units).edges.Keys == g.edges.Keys && g.nodes.Keys <= Sync(g, units).nodes.Keys
    decreases units
  {
    if units != [] { SyncKeepsAnchors(SyncUnit(g, units[0]), units[1..]); }
  }

  /** Only relating a node that does not exist leaves an edge to nowhere. */
  lemma OnlyRelatingDangles(g: Graph, op: Op)
    requires Anchored(g)
    ensures Anchored(Step(g, op)) <==> (op.OpAddRelation? ==> op.src in g.nodes && op.dst in g.nodes)
  {
    var h := Step(g, op);
    match op
    case OpSync(units) => SyncKeepsAnchors(g, units);
    case OpLock(ids) => LockKeepsEdges(g, ids);
    case OpAddRelation(src, dst) =>
      var k := Key(src, dst, RelatesTo);
      assert k in h.edges && (k in g.edges ==> src in g.nodes && dst in g.nodes);
    case _ =>
  }

  /** Every relation added on the way joins nodes that are there when it is added. */
  ghost predicate RelatesNodes(g: Graph, ops: seq<Op>)
    decreases ops
  {
    ops == []
    || ((ops[0].OpAddRelation? ==> ops[0].src in g.nodes && ops[0].dst in g.nodes) && RelatesNodes(Step(g, ops[0]), ops[1..]))
  }

  lemma {:induction false} AnchoredRun(g: Graph, ops: seq<Op>)
    requires Anchored(g) && RelatesNodes(g, ops)
    ensures Anchored(Run(g, ops))
    decreases ops
  {
    if ops != [] {
      OnlyRelatingDangles(g, ops[0]);
      AnchoredRun(Step(g, ops[0]), ops[1..]);
    }
  }

  // ---------------------------------------------------------------- what a sync reports

  function Known(g: Graph, u: Unit): Option<Hash> {
    var id := CodeUnit(u.kind, u.name);
    if id in g.nodes then g.nodes[id].contentHash else None
  }

  predicate Changes(g: Graph, u: Unit) { Known(g, u).Some? && Known(g, u).value != u.hash }

  /** What syncing `u` makes stale. */
  function MadeStale(g: Graph, u: Unit): set<Key> {
    set k | k in g.edges && Changes(g, u) && Touches(k, CodeUnit(u.kind, u.name)) && g.edges[k].flag.None?
  }

  datatype Report = Report(added: nat, changed: nat, flagged: nat) {
    function Plus(more: Report): Report { Report(added + more.added, changed + more.changed, flagged + more.flagged) }
  }

  function Counted(g: Graph, u: Unit): Report {
    Report(if Known(g, u).None? then 1 else 0, if Changes(g, u) then 1 else 0, |MadeStale(g, u)|)
  }

  /** Units without a hash before, units with another one, and the edges gone stale, each unit counted in
      the state the ones before it left. */
  function SyncReport(g: Graph, units: seq<Unit>): Report
    decreases units
  {
    if units == [] then Report(0, 0, 0) else Counted(g, units[0]).Plus(SyncReport(SyncUnit(g, units[0]), units[1..]))
  }

  function Flagged(g: Graph, h: Graph): set<Key> {
    set k | k in g.edges && k in h.edges && g.edges[k].flag.None? && h.edges[k].flag.Some?
  }

  lemma {:induction false} FlagsStay(g: Graph, units: seq<Unit>)
    ensures Sync(g, units).edges.Keys == g.edges.Keys
    ensures forall k :: k in g.edges && g.edges[k].flag.Some? ==> Sync(g, units).edges[k].flag.Some?
    decreases units
  {
    if units != [] { FlagsStay(SyncUnit(g, units[0]), units[1..]); }
  }

  lemma StaleOnce(g: Graph, u: Unit, last: Graph)
    requires last.edges.Keys == g.edges.Keys
    requires forall k {:trigger last.edges[k]} :: k in g.edges && SyncUnit(g, u).edges[k].flag.Some? ==> last.edges[k].flag.Some?
    ensures |Flagged(g, last)| == |MadeStale(g, u)| + |Flagged(SyncUnit(g, u), last)|
  {
    var now, later := MadeStale(g, u), Flagged(SyncUnit(g, u), last);
    forall k | k in now ensures k !in later { assert SyncUnit(g, u).edges[k].flag.Some?; }
    assert Flagged(g, last) == now + later;
  }

  /** The count of edges in the report is the number of edges that were fresh before the sync and are
      stale after it: no edge is counted for two units. */
  lemma {:induction false} FlaggedOnce(g: Graph, units: seq<Unit>)
    ensures SyncReport(g, units).flagged == |Flagged(g, Sync(g, units))|
    decreases units
  {
    if units == [] {
      assert Flagged(g, g) == {};
    } else {
      var h := SyncUnit(g, units[0]);
      FlaggedOnce(h, units[1..]);
      FlagsStay(h, units[1..]);
      StaleOnce(g, units[0], Sync(h, units[1..]));
    }
  }

  ghost predicate Different(units: seq<Unit>) {
    forall i, j :: 0 <= i < j < |units| ==> (units[i].kind, units[i].name) != (units[j].kind, units[j].name)
  }

  lemma KnownStays(g: Graph, u: Unit, v: Unit)
    requires (u.kind, u.name) != (v.kind, v.name)
    ensures Known(SyncUnit(g, u), v) == Known(g, v)
  {}

  /** The units of a file counted against one state. */
  function Count(g: Graph, units: seq<Unit>, added: bool): nat
    decreases units
  {
    if units == [] then 0
    else
      (if (if added then Known(g, units[0]).None? else Changes(g, units[0])) then 1 else 0) + Count(g, units[1..], added)
  }

  lemma {:induction false} CountStays(g: Graph, u: Unit, units: seq<Unit>, added: bool)
    requires forall v :: v in units ==> (u.kind, u.name) != (v.kind, v.name)
    ensures Count(SyncUnit(g, u), units, added) == Count(g, units, added)
    decreases units
  {
    if units != [] {
      KnownStays(g, u, units[0]);
      CountStays(g, u, units[1..], added);
    }
  }

  /** With no unit twice, the other two counts are those of the state before the sync. */
  lemma {:induction false} CountedBefore(g: Graph, units: seq<Unit>)
    requires Different(units)
    ensures SyncReport(g, units).added == Count(g, units, true) && SyncReport(g, units).changed == Count(g, units, false)
    decreases units
  {
    if units != [] {
      CountedBefore(SyncUnit(g, units[0]), units[1..]);
      CountStays(g, units[0], units[1..], true);
      CountStays(g, units[0], units[1..], false);
    }
  }
}
