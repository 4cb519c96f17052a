/** Impact: a breadth-first walk over the graph's edges, in either direction, cut off at a depth and at
    a number of hits. */
module Impact {
  import opened Prelude
  import K = Knowledge

  type Id = K.NodeId
  type Flag = Option<(K.Hash, K.Hash)>
  type Row = (Id, K.EdgeKind, Flag)

  datatype Edge = Edge(src: Id, dst: Id, kind: K.EdgeKind, flag: Flag)
  datatype Hit = Hit(id: Id, edgeKind: K.EdgeKind, flag: Flag, depth: nat)
  datatype Report = Report(hits: seq<Hit>, partial: bool)

  const MAX_DEPTH := 5
  const MAX_NODES := 500

  // ---------------------------------------------------------------- distance

  ghost predicate Adjacent(es: seq<Edge>, u: Id, v: Id) {
    exists e :: e in es && ((e.src == u && e.dst == v) || (e.dst == u && e.src == v))
  }

  function Ends(es: seq<Edge>): set<Id> { (set e | e in es :: e.src) + (set e | e in es :: e.dst) }

  /** The nodes within `n` steps of `start`. */
  ghost function Ball(es: seq<Edge>, start: Id, n: nat): set<Id> {
    if n == 0 then {start}
    else Ball(es, start, n - 1) + set v | v in Ends(es) && exists u :: u in Ball(es, start, n - 1) && Adjacent(es, u, v)
  }

  /** At distance exactly `d`. */
  ghost predicate At(es: seq<Edge>, start: Id, v: Id, d: nat) {
    v in Ball(es, start, d) && (d == 0 || v !in Ball(es, start, d - 1))
  }

  lemma BallStep(es: seq<Edge>, start: Id, n: nat, u: Id, v: Id)
    requires u in Ball(es, start, n) && Adjacent(es, u, v)
    ensures v in Ball(es, start, n + 1)
  {
    assert v in Ends(es);
  }

  lemma {:induction false} BallGrows(es: seq<Edge>, start: Id, m: nat, n: nat)
    requires m <= n
    ensures Ball(es, start, m) <= Ball(es, start, n)
    decreases n
  {
    if m < n { BallGrows(es, start, m, n - 1); }
  }

  lemma StillWithin(es: seq<Edge>, start: Id, m: nat, n: nat, v: Id)
    requires m <= n && v in Ball(es, start, m)
    ensures v in Ball(es, start, n)
  {
    BallGrows(es, start, m, n);
  }

  // ---------------------------------------------------------------- the walk's state

  /** A node still to be expanded, with its depth. */
  datatype Todo = Todo(id: Id, depth: nat)

  ghost predicate Waiting(queue: seq<Todo>, v: Id) { exists t :: t in queue && t.id == v }

  ghost predicate Reported(hits: seq<Hit>, v: Id) { exists h :: h in hits && h.id == v }

  /** Some edge of this kind and flag joins the hit to a node one step nearer. */
  ghost predicate Via(es: seq<Edge>, start: Id, h: Hit) {
    h.depth > 0
    && exists e :: e in es && e.kind == h.edgeKind && e.flag == h.flag
                   && ((e.dst == h.id && At(es, start, e.src, h.depth - 1)) || (e.src == h.id && At(es, start, e.dst, h.depth - 1)))
  }

  ghost predicate HitRight(es: seq<Edge>, start: Id, h: Hit) {
    h.id != start && 1 <= h.depth <= MAX_DEPTH && At(es, start, h.id, h.depth) && Via(es, start, h)
  }

  /** Every hit is a node other than the start, once, at its distance, with the kind and flag of an edge
      that leads to it. */
  ghost predicate HitsRight(es: seq<Edge>, start: Id, hits: seq<Hit>) {
    (forall h {:trigger HitRight(es, start, h)} :: h in hits ==> HitRight(es, start, h))
    && (forall i, j :: 0 <= i < j < |hits| ==> hits[i].id != hits[j].id)
  }

  ghost predicate DueNext(es: seq<Edge>, start: Id, d: nat, t: Todo) {
    d <= t.depth <= d + 1 && t.depth <= MAX_DEPTH && At(es, start, t.id, t.depth)
  }

  /** The queue is in order of depth and spans at most two depths, `d` and `d + 1`. */
  ghost predicate Layered(es: seq<Edge>, start: Id, queue: seq<Todo>, d: nat) {
    (forall t {:trigger DueNext(es, start, d, t)} :: t in queue ==> DueNext(es, start, d, t))
    && (forall i, j :: 0 <= i < j < |queue| ==> queue[i].depth <= queue[j].depth)
  }

  /** Nearer than the last depth. */
  ghost predicate Inner(es: seq<Edge>, start: Id, u: Id) { exists n: nat :: n < MAX_DEPTH && u in Ball(es, start, n) }

  /** Nodes already expanded, and not at the last depth, have had all their neighbours visited. */
  ghost predicate Expanded(es: seq<Edge>, start: Id, visited: set<Id>, queue: seq<Todo>, busy: set<Id>) {
    forall u, v {:trigger SeenFrom(es, start, visited, queue, busy, u, v)} :: SeenFrom(es, start, visited, queue, busy, u, v)
  }

  ghost predicate SeenFrom(es: seq<Edge>, start: Id, visited: set<Id>, queue: seq<Todo>, busy: set<Id>, u: Id, v: Id) {
    u in visited && !Waiting(queue, u) && u !in busy && Adjacent(es, u, v) && Inner(es, start, u) ==> v in visited
  }

  ghost predicate Walk(es: seq<Edge>, start: Id, visited: set<Id>, queue: seq<Todo>, hits: seq<Hit>, d: nat, busy: set<Id>) {
    start in visited && visited <= {start} + Ends(es) && d <= MAX_DEPTH
    && (forall v :: v in visited <==> v == start || Reported(hits, v))
    && (forall i :: 0 <= i < |queue| ==> queue[i].id in visited)
    && (forall h :: h in hits ==> h.depth <= d + 1)
    && HitsRight(es, start, hits) && Layered(es, start, queue, d) && Expanded(es, start, visited, queue, busy)
  }

  /** When everything waiting, or being expanded, is at depth `d` or more, every node within `d` steps
      has been visited. */
  lemma {:induction false} WithinVisited(
      es: seq<Edge>, start: Id, visited: set<Id>, queue: seq<Todo>, d: nat, busy: set<Id>, n: nat, v: Id)
    requires start in visited && Layered(es, start, queue, d) && Expanded(es, start, visited, queue, busy)
    requires n <= d <= MAX_DEPTH && v in Ball(es, start, n)
    requires forall b :: b in busy ==> At(es, start, b, d)
    ensures v in visited
    decreases n
  {
    if n > 0 {
      if v in Ball(es, start, n - 1) {
        WithinVisited(es, start, visited, queue, d, busy, n - 1, v);
      } else {
        var u := BallBack(es, start, n, v);
        WithinVisited(es, start, visited, queue, d, busy, n - 1, u);
        StepVisited(es, start, visited, queue, d, busy, n - 1, u, v);
      }
    }
  }

  lemma BallBack(es: seq<Edge>, start: Id, n: nat, v: Id) returns (u: Id)
    requires n > 0 && v in Ball(es, start, n) && v !in Ball(es, start, n - 1)
    ensures u in Ball(es, start, n - 1) && Adjacent(es, u, v)
  {
    u :| u in Ball(es, start, n - 1) && Adjacent(es, u, v);
  }

  lemma StepVisited(es: seq<Edge>, start: Id, visited: set<Id>, queue: seq<Todo>, d: nat, busy: set<Id>, n: nat, u: Id, v: Id)
    requires Layered(es, start, queue, d) && Expanded(es, start, visited, queue, busy) && n < d <= MAX_DEPTH
    requires u in visited && u in Ball(es, start, n) && Adjacent(es, u, v) && forall b :: b in busy ==> At(es, start, b, d)
    ensures v in visited
  {
    NotPending(es, start, queue, d, busy, n, u);
    ExpandedAt(es, start, visited, queue, busy, u, v);
  }

  lemma NotPending(es: seq<Edge>, start: Id, queue: seq<Todo>, d: nat, busy: set<Id>, n: nat, u: Id)
    requires Layered(es, start, queue, d) && n < d <= MAX_DEPTH && u in Ball(es, start, n) && forall b :: b in busy ==> At(es, start, b, d)
    ensures !Waiting(queue, u) && u !in busy && Inner(es, start, u)
  {
    IsInner(es, start, n, u);
    NotFurther(es, start, u, n, d);
    NotWaiting(es, start, queue, d, n, u);
  }

  lemma IsInner(es: seq<Edge>, start: Id, n: nat, u: Id)
    requires n < MAX_DEPTH && u in Ball(es, start, n)
    ensures Inner(es, start, u)
  {}

  lemma ExpandedAt(es: seq<Edge>, start: Id, visited: set<Id>, queue: seq<Todo>, busy: set<Id>, u: Id, v: Id)
    requires Expanded(es, start, visited, queue, busy) && u in visited && !Waiting(queue, u) && u !in busy
    requires Adjacent(es, u, v) && Inner(es, start, u)
    ensures v in visited
  {
    assert SeenFrom(es, start, visited, queue, busy, u, v);
  }

  lemma NotWaiting(es: seq<Edge>, start: Id, queue: seq<Todo>, d: nat, n: nat, u: Id)
    requires Layered(es, start, queue, d) && n < d && u in Ball(es, start, n)
    ensures !Waiting(queue, u)
  {
    if Waiting(queue, u) {
      var t :| t in queue && t.id == u;
      assert DueNext(es, start, d, t);
      NotFurther(es, start, u, n, t.depth);
    }
  }

  lemma NotFurther(es: seq<Edge>, start: Id, u: Id, m: nat, k: nat)
    requires u in Ball(es, start, m) && m < k
    ensures !At(es, start, u, k)
  {
    StillWithin(es, start, m, k - 1, u);
  }

  // ---------------------------------------------------------------- the walk

  /** The rows of the query: what `id` points to, then what points to it. */
  function Rows(es: seq<Edge>, id: Id): seq<Row> { Out(es, id) + In(es, id) }

  function Out(es: seq<Edge>, id: Id): seq<Row> {
    if es == [] then []
    else (if es[0].src == id then [(es[0].dst, es[0].kind, es[0].flag)] else []) + Out(es[1..], id)
  }

  function In(es: seq<Edge>, id: Id): seq<Row> {
    if es == [] then []
    else (if es[0].dst == id then [(es[0].src, es[0].kind, es[0].flag)] else []) + In(es[1..], id)
  }

  lemma {:induction false} OutRows(es: seq<Edge>, id: Id, v: Id)
    ensures (exists r :: r in Out(es, id) && r.0 == v) <==> exists e :: e in es && e.src == id && e.dst == v
  {
    if es != [] {
      OutRows(es[1..], id, v);
      var first := if es[0].src == id then [(es[0].dst, es[0].kind, es[0].flag)] else [];
      assert Out(es, id) == first + Out(es[1..], id);
      if e :| e in es && e.src == id && e.dst == v {
        if e == es[0] { assert first[0] in Out(es, id); } else { assert e in es[1..]; }
      }
    }
  }

  lemma {:induction false} InRows(es: seq<Edge>, id: Id, v: Id)
    ensures (exists r :: r in In(es, id) && r.0 == v) <==> exists e :: e in es && e.dst == id && e.src == v
  {
    if es != [] {
      InRows(es[1..], id, v);
      var first := if es[0].dst == id then [(es[0].src, es[0].kind, es[0].flag)] else [];
      assert In(es, id) == first + In(es[1..], id);
      if e :| e in es && e.dst == id && e.src == v {
        if e == es[0] { assert first[0] in In(es, id); } else { assert e in es[1..]; }
      }
    }
  }

  /** The rows name exactly the neighbours. */
  lemma RowsAreNeighbours(es: seq<Edge>, id: Id, v: Id)
    ensures (exists r :: r in Rows(es, id) && r.0 == v) <==> Adjacent(es, id, v)
  {
    OutRows(es, id, v);
    InRows(es, id, v);
  }

  lemma {:induction false} OutEdge(es: seq<Edge>, id: Id, r: Row)
    requires r in Out(es, id)
    ensures Edge(id, r.0, r.1, r.2) in es
  {
    var first := if es[0].src == id then [(es[0].dst, es[0].kind, es[0].flag)] else [];
    if r !in first { OutEdge(es[1..], id, r); }
  }

  lemma {:induction false} InEdge(es: seq<Edge>, id: Id, r: Row)
    requires r in In(es, id)
    ensures Edge(r.0, id, r.1, r.2) in es
  {
    var first := if es[0].dst == id then [(es[0].src, es[0].kind, es[0].flag)] else [];
    if r !in first { InEdge(es[1..], id, r); }
  }

  /** A row's kind and flag are those of an edge between the two nodes. */
  lemma RowVia(es: seq<Edge>, start: Id, u: Id, d: nat, r: Row)
    requires r in Rows(es, u) && At(es, start, u, d)
    ensures Via(es, start, Hit(r.0, r.1, r.2, d + 1))
  {
    if r in Out(es, u) { OutEdge(es, u, r); } else { InEdge(es, u, r); }
  }

  class Walker {
    const es: seq<Edge>
    const nodes: set<Id>
    const start: Id
    var visited: set<Id>
    var queue: seq<Todo>
    var hits: seq<Hit>
    var partial: bool

    constructor (es: seq<Edge>, nodes: set<Id>, start: Id)
      ensures this.es == es && this.nodes == nodes && this.start == start && !partial
      ensures Ready(0, {})
    {
      this.es, this.nodes, this.start := es, nodes, start;
      visited, queue, hits, partial := {start}, [Todo(start, 0)], [], false;
      new;
      assert Waiting(queue, start);
    }

    ghost predicate Ready(d: nat, busy: set<Id>) reads this {
      Walk(es, start, visited, queue, hits, d, busy) && |hits| <= MAX_NODES && InTable()
    }

    ghost predicate InTable() reads this { forall h :: h in hits ==> h.id in nodes }

    /** The nodes that could still be visited. */
    ghost function Unseen(): set<Id> reads this { Ends(es) - visited }

    /** Looks at one neighbour of `u`, which is at depth `d`. False stops the walk: too many hits, or
        a node that is not in the table. */
    method Visit(u: Id, d: nat, row: Row) returns (go: bool)
      requires Ready(d, {u}) && At(es, start, u, d) && d < MAX_DEPTH && u in visited && row in Rows(es, u) && !partial
      modifies this`visited, this`queue, this`hits, this`partial
      ensures old(hits) <= hits && visited >= old(visited) && row.0 in visited
      ensures go ==> Ready(d, {u}) && !partial && Unseen() <= old(Unseen()) && (Unseen() == old(Unseen()) ==> queue == old(queue))
      ensures !go ==> hits == old(hits) && visited == old(visited) + {row.0} && row.0 !in old(visited)
      ensures !go ==> InTable() && if partial then |hits| == MAX_NODES else row.0 !in nodes
    {
      if row.0 in visited { return true; }
      ghost var seen, waiting := visited, queue;
      visited := visited + {row.0};
      if |hits| >= MAX_NODES {
        partial := true;
        return false;
      }
      if row.0 !in nodes { return false; }
      hits := hits + [Hit(row.0, row.1, row.2, d + 1)];
      queue := queue + [Todo(row.0, d + 1)];
      NewRow(es, start, seen, waiting, hits[..|hits| - 1], d, u, row, hits[|hits| - 1]);
      go := true;
    }
  }

  lemma NewRow(es: seq<Edge>, start: Id, seen: set<Id>, queue: seq<Todo>, hits: seq<Hit>, d: nat, u: Id, row: Row, h: Hit)
    requires Walk(es, start, seen, queue, hits, d, {u}) && At(es, start, u, d) && d < MAX_DEPTH && row in Rows(es, u)
    requires row.0 !in seen && h == Hit(row.0, row.1, row.2, d + 1)
    ensures row.0 in Ends(es) && Walk(es, start, seen + {row.0}, queue + [Todo(row.0, d + 1)], hits + [h], d, {u})
  {
    RowAt(es, start, seen, queue, hits, d, u, row, h.depth);
    RowVia(es, start, u, d, row);
    NewNode(es, start, seen, queue, hits, d, u, row.0, h);
  }

  lemma RowAt(es: seq<Edge>, start: Id, seen: set<Id>, queue: seq<Todo>, hits: seq<Hit>, d: nat, u: Id, row: Row, k: nat)
    requires Walk(es, start, seen, queue, hits, d, {u}) && At(es, start, u, d) && d < MAX_DEPTH && row in Rows(es, u)
    requires row.0 !in seen && k == d + 1
    ensures row.0 in Ends(es) && At(es, start, row.0, k)
  {
    RowsAreNeighbours(es, u, row.0);
    NewAt(es, start, seen, queue, d, u, row.0);
  }

  /** A node not seen before is one step further than the node it was reached from. */
  lemma NewNode(es: seq<Edge>, start: Id, seen: set<Id>, queue: seq<Todo>, hits: seq<Hit>, d: nat, u: Id, v: Id, h: Hit)
    requires Walk(es, start, seen, queue, hits, d, {u}) && d < MAX_DEPTH
    requires v !in seen && h.id == v && h.depth == d + 1 && Via(es, start, h) && At(es, start, v, h.depth) && v in Ends(es)
    ensures Walk(es, start, seen + {v}, queue + [Todo(v, d + 1)], hits + [h], d, {u})
  {
    NewHits(es, start, seen, hits, h);
    NewQueue(es, start, seen, queue, d, u, v);
    WalkMore(es, start, seen, queue, hits, d, u, v, h);
  }

  lemma WalkMore(es: seq<Edge>, start: Id, seen: set<Id>, queue: seq<Todo>, hits: seq<Hit>, d: nat, u: Id, v: Id, h: Hit)
    requires Walk(es, start, seen, queue, hits, d, {u}) && v in Ends(es) && h.depth == d + 1
    requires HitsRight(es, start, hits + [h]) && forall w :: w in seen + {v} <==> w == start || Reported(hits + [h], w)
    requires Layered(es, start, queue + [Todo(v, d + 1)], d) && Expanded(es, start, seen + {v}, queue + [Todo(v, d + 1)], {u})
    ensures Walk(es, start, seen + {v}, queue + [Todo(v, d + 1)], hits + [h], d, {u})
  {}

  lemma NewAt(es: seq<Edge>, start: Id, seen: set<Id>, queue: seq<Todo>, d: nat, u: Id, v: Id)
    requires start in seen && Layered(es, start, queue, d) && Expanded(es, start, seen, queue, {u})
    requires At(es, start, u, d) && d < MAX_DEPTH && Adjacent(es, u, v) && v !in seen
    ensures At(es, start, v, d + 1) && v in Ends(es)
  {
    BallStep(es, start, d, u, v);
    if v in Ball(es, start, d) { WithinVisited(es, start, seen, queue, d, {u}, d, v); }
  }

  lemma NewHits(es: seq<Edge>, start: Id, seen: set<Id>, hits: seq<Hit>, h: Hit)
    requires HitsRight(es, start, hits) && (forall v :: v in seen <==> v == start || Reported(hits, v)) && start in seen
    requires h.id !in seen && 1 <= h.depth <= MAX_DEPTH && At(es, start, h.id, h.depth) && Via(es, start, h)
    ensures HitsRight(es, start, hits + [h])
    ensures forall v :: v in seen + {h.id} <==> v == start || Reported(hits + [h], v)
  {
    var more := hits + [h];
    forall v ensures v in seen + {h.id} <==> v == start || Reported(more, v) {
      if Reported(hits, v) { var g :| g in hits && g.id == v; assert g in more; }
      if v == h.id { assert h in more; }
    }
    forall i | 0 <= i < |hits| ensures hits[i].id != h.id { assert Reported(hits, hits[i].id); }
  }

  lemma NewQueue(es: seq<Edge>, start: Id, seen: set<Id>, queue: seq<Todo>, d: nat, u: Id, v: Id)
    requires Layered(es, start, queue, d) && Expanded(es, start, seen, queue, {u}) && d < MAX_DEPTH && At(es, start, v, d + 1)
    ensures Layered(es, start, queue + [Todo(v, d + 1)], d)
    ensures Expanded(es, start, seen + {v}, queue + [Todo(v, d + 1)], {u})
  {
    LayeredMore(es, start, queue, d, Todo(v, d + 1));
    WaitingMore(queue, Todo(v, d + 1));
    ExpandedMore(es, start, seen, queue, queue + [Todo(v, d + 1)], {u}, v);
  }

  lemma LayeredMore(es: seq<Edge>, start: Id, queue: seq<Todo>, d: nat, t: Todo)
    requires Layered(es, start, queue, d) && t.depth == d + 1 <= MAX_DEPTH && At(es, start, t.id, t.depth)
    ensures Layered(es, start, queue + [t], d)
  {
    var more := queue + [t];
    forall x | x in more ensures DueNext(es, start, d, x) {
      if x != t { assert x in queue && DueNext(es, start, d, x); }
    }
    forall i | 0 <= i < |queue| ensures queue[i].depth <= t.depth { assert DueNext(es, start, d, queue[i]); }
  }

  lemma WaitingMore(queue: seq<Todo>, t: Todo)
    ensures forall w :: Waiting(queue + [t], w) <==> Waiting(queue, w) || w == t.id
  {
    var more := queue + [t];
    assert more[|queue|] == t;
    forall w ensures Waiting(more, w) <==> Waiting(queue, w) || w == t.id {
      if Waiting(queue, w) { var x :| x in queue && x.id == w; assert x in more; }
    }
  }

  lemma ExpandedMore(es: seq<Edge>, start: Id, seen: set<Id>, queue: seq<Todo>, more: seq<Todo>, busy: set<Id>, v: Id)
    requires Expanded(es, start, seen, queue, busy) && forall w :: Waiting(more, w) <==> Waiting(queue, w) || w == v
    ensures Expanded(es, start, seen + {v}, more, busy)
  {
    forall u, w ensures SeenFrom(es, start, seen + {v}, more, busy, u, w) {
      assert SeenFrom(es, start, seen, queue, busy, u, w);
    }
  }

  /** Taking the front off the queue to expand it. */
  lemma TakeFront(es: seq<Edge>, start: Id, visited: set<Id>, queue: seq<Todo>, hits: seq<Hit>, d: nat)
    requires Walk(es, start, visited, queue, hits, d, {}) && queue != []
    ensures var t := queue[0];
            t.id in visited && At(es, start, t.id, t.depth) && Walk(es, start, visited, queue[1..], hits, t.depth, {t.id})
  {
    var t := queue[0];
    forall w | Waiting(queue, w) && w != t.id ensures Waiting(queue[1..], w) {
      var x :| x in queue && x.id == w;
      assert x in queue[1..];
    }
    assert DueNext(es, start, d, t);
    forall x | x in queue[1..] ensures DueNext(es, start, t.depth, x) {
      assert DueNext(es, start, d, x);
      var i :| 0 < i < |queue| && queue[i] == x;
    }
    forall u, v ensures SeenFrom(es, start, visited, queue[1..], {t.id}, u, v) {
      assert SeenFrom(es, start, visited, queue, {}, u, v);
    }
  }

  /** A node at the last depth need not be expanded; one whose neighbours are all visited has been. */
  lemma FrontDone(es: seq<Edge>, start: Id, visited: set<Id>, queue: seq<Todo>, hits: seq<Hit>, d: nat, u: Id)
    requires Walk(es, start, visited, queue, hits, d, {u}) && At(es, start, u, d)
    requires d >= MAX_DEPTH || forall v :: Adjacent(es, u, v) ==> v in visited
    ensures Walk(es, start, visited, queue, hits, d, {})
  {
    if d >= MAX_DEPTH && Inner(es, start, u) {
      var n: nat :| n < MAX_DEPTH && u in Ball(es, start, n);
      StillWithin(es, start, n, d - 1, u);
    }
    forall w, v ensures SeenFrom(es, start, visited, queue, {}, w, v) {
      assert SeenFrom(es, start, visited, queue, {u}, w, v);
    }
  }

  /** What a finished walk has found. */
  ghost predicate Complete(es: seq<Edge>, start: Id, hits: seq<Hit>) {
    HitsRight(es, start, hits) && forall v :: v != start && v in Ball(es, start, MAX_DEPTH) ==> Reported(hits, v)
  }

  /** What an abandoned walk has found: nothing unreported is nearer than anything reported. */
  ghost predicate Nearest(es: seq<Edge>, start: Id, hits: seq<Hit>) {
    |hits| == MAX_NODES && HitsRight(es, start, hits)
    && forall v, k: nat, h :: v != start && !Reported(hits, v) && h in hits && v in Ball(es, start, k) ==> h.depth <= k
  }

  lemma WalkComplete(es: seq<Edge>, start: Id, visited: set<Id>, hits: seq<Hit>, d: nat)
    requires Walk(es, start, visited, [], hits, d, {})
    ensures Complete(es, start, hits)
  {
    forall v | v != start && v in Ball(es, start, MAX_DEPTH) ensures Reported(hits, v) {
      assert Walk(es, start, visited, [], hits, MAX_DEPTH, {});
      WithinVisited(es, start, visited, [], MAX_DEPTH, {}, MAX_DEPTH, v);
    }
  }

  lemma WalkNearest(es: seq<Edge>, start: Id, visited: set<Id>, queue: seq<Todo>, hits: seq<Hit>, d: nat, u: Id)
    requires Walk(es, start, visited, queue, hits, d, {u}) && At(es, start, u, d) && |hits| == MAX_NODES
    ensures Nearest(es, start, hits)
  {
    forall v, k: nat, h | v != start && !Reported(hits, v) && h in hits && v in Ball(es, start, k) ensures h.depth <= k {
      if k <= d { WithinVisited(es, start, visited, queue, d, {u}, k, v); }
    }
  }

  datatype Outcome = Found(report: Report) | MissingNode(id: Id)

  /** One row; when the walk stops there, what it has found so far. */
  method ExpandRow(w: Walker, u: Id, d: nat, row: Row) returns (go: bool)
    requires w.Ready(d, {u}) && At(w.es, w.start, u, d) && d < MAX_DEPTH && u in w.visited && !w.partial && row in Rows(w.es, u)
    modifies w`visited, w`queue, w`hits, w`partial
    ensures w.visited >= old(w.visited) && row.0 in w.visited
    ensures go ==> w.Ready(d, {u}) && !w.partial && w.Unseen() <= old(w.Unseen())
                   && (w.Unseen() == old(w.Unseen()) ==> w.queue == old(w.queue))
    ensures !go ==> w.InTable()
                    && if w.partial then Nearest(w.es, w.start, w.hits) else row.0 !in w.nodes && row.0 in Ball(w.es, w.start, MAX_DEPTH)
  {
    ghost var seen, queue, hits := w.visited, w.queue, w.hits;
    RowsAreNeighbours(w.es, u, row.0);
    go := w.Visit(u, d, row);
    if !go {
      if w.partial { WalkNearest(w.es, w.start, seen, queue, hits, d, u); }
      else {
        BallStep(w.es, w.start, d, u, row.0);
        StillWithin(w.es, w.start, d + 1, MAX_DEPTH, row.0);
      }
    }
  }

  lemma AllRows(es: seq<Edge>, u: Id, visited: set<Id>)
    requires forall r :: r in Rows(es, u) ==> r.0 in visited
    ensures forall v :: Adjacent(es, u, v) ==> v in visited
  {
    forall v | Adjacent(es, u, v) ensures v in visited {
      RowsAreNeighbours(es, u, v);
      var r :| r in Rows(es, u) && r.0 == v;
    }
  }

  /** Expands `u`: every row in turn. */
  method Expand(w: Walker, u: Id, d: nat) returns (go: bool, missing: Id)
    requires w.Ready(d, {u}) && At(w.es, w.start, u, d) && d < MAX_DEPTH && u in w.visited && !w.partial
    modifies w`visited, w`queue, w`hits, w`partial
    ensures go ==> w.Ready(d, {}) && !w.partial && w.Unseen() <= old(w.Unseen())
                   && (w.Unseen() == old(w.Unseen()) ==> w.queue == old(w.queue))
    ensures !go ==> w.InTable()
                    && if w.partial then Nearest(w.es, w.start, w.hits) else missing !in w.nodes && missing in Ball(w.es, w.start, MAX_DEPTH)
  {
    var rows := Rows(w.es, u);
    missing := u;
    for i := 0 to |rows|
      invariant w.Ready(d, {u}) && !w.partial && u in w.visited && w.Unseen() <= old(w.Unseen())
      invariant w.Unseen() == old(w.Unseen()) ==> w.queue == old(w.queue)
      invariant forall r :: r in rows[..i] ==> r.0 in w.visited
    {
      go := ExpandRow(w, u, d, rows[i]);
      if !go { return false, rows[i].0; }
    }
    assert rows[..|rows|] == rows;
    AllRows(w.es, u, w.visited);
    FrontDone(w.es, w.start, w.visited, w.queue, w.hits, d, u);
    go := true;
  }

  /** The whole walk: complete, or 500 of the nearest, or the id of an edge's end that is not a node. */
  method Run(es: seq<Edge>, nodes: set<Id>, start: Id) returns (r: Outcome)
    ensures r.Found? && !r.report.partial ==> Complete(es, start, r.report.hits)
    ensures r.Found? && r.report.partial ==> Nearest(es, start, r.report.hits) && |r.report.hits| == 500
    ensures r.Found? ==> FlaggedFirst(r.report.hits) && forall h :: h in r.report.hits ==> h.id in nodes
    ensures r.MissingNode? ==> r.id !in nodes && r.id in Ball(es, start, MAX_DEPTH)
  {
    var w := new Walker(es, nodes, start);
    ghost var d := 0;
    while w.queue != []
      invariant w.es == es && w.nodes == nodes && w.start == start && !w.partial && w.Ready(d, {})
      decreases w.Unseen(), |w.queue|
    {
      var t := w.queue[0];
      TakeFront(es, start, w.visited, w.queue, w.hits, d);
      w.queue := w.queue[1..];
      d := t.depth;
      if t.depth >= MAX_DEPTH {
        FrontDone(es, start, w.visited, w.queue, w.hits, d, t.id);
      } else {
        var go, missing := Expand(w, t.id, t.depth);
        if !go {
          if !w.partial { return MissingNode(missing); }
          var sorted := Sort(w.hits);
          SortedNearest(es, start, w.hits, sorted);
          SameHits(w.hits, sorted);
          return Found(Report(sorted, true));
        }
      }
    }
    WalkComplete(es, start, w.visited, w.hits, d);
    var sorted := Sort(w.hits);
    SortedComplete(es, start, w.hits, sorted);
    SameHits(w.hits, sorted);
    r := Found(Report(sorted, false));
  }

  // ---------------------------------------------------------------- the report's order

  /** Flagged hits first, then by depth. */
  predicate NotAfter(a: Hit, b: Hit) {
    if a.flag.Some? == b.flag.Some? then a.depth <= b.depth else a.flag.Some?
  }

  ghost predicate FlaggedFirst(hits: seq<Hit>) {
    forall i, j :: 0 <= i < j < |hits| ==>
      (hits[j].flag.Some? ==> hits[i].flag.Some?)
      && ((hits[i].flag.Some? <==> hits[j].flag.Some?) ==> hits[i].depth <= hits[j].depth)
  }

  function Insert(h: Hit, sorted: seq<Hit>): (r: seq<Hit>)
    ensures multiset(r) == multiset(sorted) + multiset{h}
  {
    if sorted == [] || !NotAfter(sorted[0], h) then
      assert [h] + sorted == [h] + sorted;
      [h] + sorted
    else
      assert sorted == [sorted[0]] + sorted[1..];
      [sorted[0]] + Insert(h, sorted[1..])
  }

  lemma InsertedFrom(h: Hit, sorted: seq<Hit>, i: nat)
    requires i < |Insert(h, sorted)|
    ensures Insert(h, sorted)[i] == h || Insert(h, sorted)[i] in sorted
  {
    var r := Insert(h, sorted);
    assert r[i] in multiset(r);
    if r[i] != h { assert r[i] in multiset(sorted); }
  }

  lemma {:induction false} InsertOrdered(h: Hit, sorted: seq<Hit>)
    requires FlaggedFirst(sorted)
    ensures FlaggedFirst(Insert(h, sorted))
  {
    if sorted != [] && NotAfter(sorted[0], h) {
      var rest := sorted[1..];
      InsertOrdered(h, rest);
      var r := Insert(h, rest);
      forall i | 0 <= i < |r| ensures NotAfter(sorted[0], r[i]) { InsertedFrom(h, rest, i); }
    } else if sorted != [] {
      forall i | 0 <= i < |sorted| ensures NotAfter(h, sorted[i]) {}
    }
  }

  method Sort(hits: seq<Hit>) returns (sorted: seq<Hit>)
    ensures multiset(sorted) == multiset(hits) && FlaggedFirst(sorted)
  {
    sorted := [];
    for i := 0 to |hits|
      invariant multiset(sorted) == multiset(hits[..i]) && FlaggedFirst(sorted)
    {
      assert hits[..i + 1] == hits[..i] + [hits[i]];
      InsertOrdered(hits[i], sorted);
      sorted := Insert(hits[i], sorted);
    }
    assert hits[..|hits|] == hits;
  }

  lemma SameHits(a: seq<Hit>, b: seq<Hit>)
    requires multiset(a) == multiset(b)
    ensures |a| == |b| && (forall h :: h in a <==> h in b) && (forall v :: Reported(a, v) <==> Reported(b, v))
  {
    assert |multiset(a)| == |a| && |multiset(b)| == |b|;
    forall h ensures h in a <==> h in b { assert h in multiset(a) <==> h in multiset(b); }
  }

  lemma SortedRight(es: seq<Edge>, start: Id, a: seq<Hit>, b: seq<Hit>)
    requires HitsRight(es, start, a) && multiset(a) == multiset(b)
    ensures HitsRight(es, start, b)
  {
    SameHits(a, b);
    forall i, j | 0 <= i < j < |b| ensures b[i].id != b[j].id { StillDifferent(es, start, a, b, i, j); }
    forall h | h in b ensures HitRight(es, start, h) { assert h in a && HitRight(es, start, h); }
  }

  /** Hits that are all different stay so when rearranged. */
  lemma StillDifferent(es: seq<Edge>, start: Id, a: seq<Hit>, b: seq<Hit>, i: nat, j: nat)
    requires HitsRight(es, start, a) && multiset(a) == multiset(b) && i < j < |b|
    ensures b[i].id != b[j].id
  {
    SameHits(a, b);
    assert b[i] in a && b[j] in a;
    var k :| 0 <= k < |a| && a[k] == b[i];
    var l :| 0 <= l < |a| && a[l] == b[j];
    OnceEach(es, start, a, k);
    TwiceIn(b, i, j);
    assert k != l;
  }

  lemma TwiceIn(b: seq<Hit>, i: nat, j: nat)
    requires i < j < |b|
    ensures b[i] == b[j] ==> multiset(b)[b[i]] >= 2
  {
    assert b == b[..i] + [b[i]] + b[i + 1..j] + [b[j]] + b[j + 1..];
  }

  lemma OnceEach(es: seq<Edge>, start: Id, a: seq<Hit>, k: nat)
    requires HitsRight(es, start, a) && k < |a|
    ensures multiset(a)[a[k]] == 1
  {
    assert a == a[..k] + [a[k]] + a[k + 1..];
    assert a[k] !in a[..k] && a[k] !in a[k + 1..];
  }

  lemma SortedComplete(es: seq<Edge>, start: Id, a: seq<Hit>, b: seq<Hit>)
    requires Complete(es, start, a) && multiset(a) == multiset(b)
    ensures Complete(es, start, b)
  {
    SortedRight(es, start, a, b);
    SameHits(a, b);
  }

  lemma SortedNearest(es: seq<Edge>, start: Id, a: seq<Hit>, b: seq<Hit>)
    requires Nearest(es, start, a) && multiset(a) == multiset(b)
    ensures Nearest(es, start, b)
  {
    SortedRight(es, start, a, b);
    SameHits(a, b);
  }

  /** A complete report lists exactly the nodes 1 to 5 steps away, at their distances. */
  lemma CompleteIsExact(es: seq<Edge>, start: Id, hits: seq<Hit>, v: Id, d: nat)
    requires Complete(es, start, hits)
    ensures (exists h :: h in hits && h.id == v && h.depth == d) <==> v != start && d <= 5 && At(es, start, v, d)
  {
    if v != start && d <= MAX_DEPTH && At(es, start, v, d) {
      StillWithin(es, start, d, MAX_DEPTH, v);
      var h :| h in hits && h.id == v;
      assert HitRight(es, start, h);
      OneDistance(es, start, v, d, h.depth);
    }
    if h :| h in hits && h.id == v && h.depth == d { assert HitRight(es, start, h); }
  }

  lemma OneDistance(es: seq<Edge>, start: Id, v: Id, d: nat, e: nat)
    requires At(es, start, v, d) && At(es, start, v, e)
    ensures d == e
  {
    if d < e { StillWithin(es, start, d, e - 1, v); } else if e < d { StillWithin(es, start, e, d - 1, v); }
  }

  // ---------------------------------------------------------------- on the knowledge graph

  function AsKey(e: Edge): K.Key { K.Key(e.src, e.dst, e.kind) }

  /** The rows are the edges of the graph, each once, in some order. */
  ghost predicate Lists(es: seq<Edge>, edges: map<K.Key, K.Link>) {
    (forall e :: e in es <==> AsKey(e) in edges && edges[AsKey(e)].flag == e.flag)
    && forall i, j :: 0 <= i < j < |es| ==> AsKey(es[i]) != AsKey(es[j])
  }

  /** A walk can only come to a node that is not in the table along an edge to nowhere. */
  lemma {:induction false} NothingMissing(es: seq<Edge>, g: K.Graph, start: Id, n: nat)
    requires Lists(es, g.edges) && K.Anchored(g) && start in g.nodes
    ensures Ball(es, start, n) <= g.nodes.Keys
  {
    if n > 0 {
      NothingMissing(es, g, start, n - 1);
      forall e | e in es ensures e.src in g.nodes && e.dst in g.nodes { assert AsKey(e) in g.edges; }
    }
  }

  /** On whatever graph any operations have made, the walk meets no missing node, as long as they only
      related nodes that were there. */
  lemma NothingMissingOnRuns(ops: seq<K.Op>, es: seq<Edge>, start: Id, n: nat)
    requires K.RelatesNodes(K.EMPTY, ops)
    requires var g := K.Run(K.EMPTY, ops); Lists(es, g.edges) && start in g.nodes
    ensures Ball(es, start, n) <= K.Run(K.EMPTY, ops).nodes.Keys
  {
    K.AnchoredRun(K.EMPTY, ops);
    NothingMissing(es, K.Run(K.EMPTY, ops), start, n);
  }

  /** A complete report has met no missing node. */
  lemma CompleteMissesNothing(es: seq<Edge>, nodes: set<Id>, start: Id, hits: seq<Hit>)
    requires Complete(es, start, hits) && start in nodes && forall h :: h in hits ==> h.id in nodes
    ensures Ball(es, start, MAX_DEPTH) <= nodes
  {
    forall v | v in Ball(es, start, MAX_DEPTH) ensures v in nodes {
      if v != start { assert Reported(hits, v); }
    }
  }
}
