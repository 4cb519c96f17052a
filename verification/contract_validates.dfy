/** All `validate` blocks of a program, checked together to a fixed point. */
module ContractValidates {
  import opened Prelude
  import opened Types
  import opened KeyedEntries
  import opened ContractLanguage
  import opened ContractWalker
  import opened ContractEval
  import opened ContractSound
  import opened ContractTheorems

  datatype Validate = Validate(fn: string, entries: seq<(string, Expr)>)

  function CheckBlock(fns: Program, v: Validate, S: map<string, Summary>, oracle: Oracle): Verdict {
    match FindFn(fns, v.fn)
    case None => NoSuchFunction
    case Some(f) => CheckContract(f, Entries(v.entries, "pre"), Task(Entries(v.entries, "post"), S, oracle))
  }

  function SummaryOf(fns: Program, v: Validate): Summary
    requires FindFn(fns, v.fn).Some?
  {
    var f := FindFn(fns, v.fn).value;
    Summary(f.params, f.ret, Entries(v.entries, "pre"), Entries(v.entries, "post"))
  }

  function Names(blocks: seq<Validate>): set<string> { set v | v in blocks :: v.fn }

  lemma NamesBound(blocks: seq<Validate>)
    ensures |Names(blocks)| <= |blocks|
  {
    if blocks == [] {
      assert Names(blocks) == {};
    } else {
      var n := |blocks| - 1;
      NamesBound(blocks[..n]);
      assert blocks == blocks[..n] + [blocks[n]];
      assert Names(blocks) == Names(blocks[..n]) + {blocks[n].fn};
    }
  }

  function Restrict(S: map<string, Summary>, names: seq<string>): map<string, Summary> {
    map g | g in S && g in names :: S[g]
  }

  /** `block` earned the summary of `name` using only summaries earned before it. */
  ghost predicate EarnedBy(fns: Program, v: Validate, S: map<string, Summary>, before: seq<string>, name: string, oracle: Oracle) {
    v.fn == name && name in S && FindFn(fns, v.fn).Some? && S[name] == SummaryOf(fns, v)
    && CheckBlock(fns, v, Restrict(S, before), oracle).Proved?
  }

  /** `order` ranks promoted functions: each was proved from strictly earlier ones. */
  ghost predicate Ranked(fns: Program, blocks: seq<Validate>, S: map<string, Summary>, order: seq<string>, oracle: Oracle) {
    order == []
    || (var n := |order| - 1;
        Ranked(fns, blocks, S, order[..n], oracle) && order[n] !in order[..n]
        && exists v :: v in blocks && EarnedBy(fns, v, S, order[..n], order[n], oracle))
  }

  ghost predicate Earned(fns: Program, blocks: seq<Validate>, S: map<string, Summary>, order: seq<string>, oracle: Oracle) {
    Ranked(fns, blocks, S, order, oracle) && S.Keys == (set g | g in order)
  }

  /** `verdict` is the verdict on `v` under `S`, and a proof of it is among the summaries. */
  ghost predicate Agrees(fns: Program, v: Validate, verdict: Verdict, S: map<string, Summary>, oracle: Oracle) {
    verdict == CheckBlock(fns, v, S, oracle) && (verdict.Proved? ==> v.fn in S)
  }

  ghost predicate AgreeUpTo(fns: Program, blocks: seq<Validate>, n: nat, outcomes: seq<Verdict>, S: map<string, Summary>, oracle: Oracle) {
    n <= |outcomes| && n <= |blocks|
    && (n == 0 || (AgreeUpTo(fns, blocks, n - 1, outcomes, S, oracle) && Agrees(fns, blocks[n - 1], outcomes[n - 1], S, oracle)))
  }

  lemma {:induction false} AgreeOneMore(
      fns: Program, blocks: seq<Validate>, n: nat, outcomes: seq<Verdict>, next: Verdict, S: map<string, Summary>, oracle: Oracle)
    requires AgreeUpTo(fns, blocks, n, outcomes, S, oracle)
    ensures AgreeUpTo(fns, blocks, n, outcomes + [next], S, oracle)
  {
    if n > 0 { AgreeOneMore(fns, blocks, n - 1, outcomes, next, S, oracle); }
  }

  /** Every outcome agrees with these very summaries. */
  ghost predicate Settled(fns: Program, blocks: seq<Validate>, outcomes: seq<Verdict>, S: map<string, Summary>, oracle: Oracle) {
    |outcomes| == |blocks|
    && forall i :: 0 <= i < |blocks| ==> Agrees(fns, blocks[i], outcomes[i], S, oracle)
  }

  lemma {:induction false} AgreeAt(
      fns: Program, blocks: seq<Validate>, n: nat, outcomes: seq<Verdict>, S: map<string, Summary>, oracle: Oracle, i: nat)
    requires AgreeUpTo(fns, blocks, n, outcomes, S, oracle) && i < n
    ensures Agrees(fns, blocks[i], outcomes[i], S, oracle)
  {
    if i < n - 1 { AgreeAt(fns, blocks, n - 1, outcomes, S, oracle, i); }
  }

  lemma AgreeOnAll(fns: Program, blocks: seq<Validate>, outcomes: seq<Verdict>, S: map<string, Summary>, oracle: Oracle)
    requires |outcomes| == |blocks| && AgreeUpTo(fns, blocks, |blocks|, outcomes, S, oracle)
    ensures Settled(fns, blocks, outcomes, S, oracle)
  {
    forall i | 0 <= i < |blocks| ensures Agrees(fns, blocks[i], outcomes[i], S, oracle) {
      AgreeAt(fns, blocks, |blocks|, outcomes, S, oracle, i);
    }
  }

  ghost predicate Extends(S: map<string, Summary>, S2: map<string, Summary>) {
    forall g :: g in S ==> g in S2 && S2[g] == S[g]
  }

  /** One block. A block proved for a function without a summary promotes it at once; a summary,
      once there, is never replaced. */
  method RunBlock(fns: Program, blocks: seq<Validate>, v: Validate, oracle: Oracle, before: map<string, Summary>, ghost rank: seq<string>)
    returns (verdict: Verdict, summaries: map<string, Summary>, promoted: bool, ghost order: seq<string>)
    requires Earned(fns, blocks, before, rank, oracle) && v in blocks
    ensures Earned(fns, blocks, summaries, order, oracle) && Extends(before, summaries)
    ensures summaries.Keys <= before.Keys + {v.fn}
    ensures promoted ==> |summaries| == |before| + 1
    ensures !promoted ==> summaries == before && Agrees(fns, v, verdict, before, oracle)
  {
    match FindFn(fns, v.fn) {
      case None => verdict := NoSuchFunction;
      case Some(f) =>
        verdict := CheckFnContract(f, Entries(v.entries, "pre"), Task(Entries(v.entries, "post"), before, oracle));
    }
    summaries, order, promoted := before, rank, false;
    if verdict.Proved? && v.fn !in before {
      Promote(fns, blocks, before, rank, v, oracle);
      summaries := before[v.fn := SummaryOf(fns, v)];
      order := rank + [v.fn];
      promoted := true;
    }
  }

  lemma StillExtends(before: map<string, Summary>, mid: map<string, Summary>, now: map<string, Summary>, blocks: seq<Validate>, i: nat)
    requires Extends(before, mid) && Extends(mid, now) && i < |blocks|
    requires mid.Keys <= Names(blocks) && now.Keys <= mid.Keys + {blocks[i].fn}
    ensures Extends(before, now) && now.Keys <= Names(blocks)
  {
    assert blocks[i].fn in Names(blocks);
  }

  /** One pass: each block sees the summaries promoted by the blocks before it. */
  method RunPass(fns: Program, blocks: seq<Validate>, oracle: Oracle, before: map<string, Summary>, ghost rank: seq<string>)
    returns (outcomes: seq<Verdict>, summaries: map<string, Summary>, progressed: bool, ghost order: seq<string>)
    requires Earned(fns, blocks, before, rank, oracle) && before.Keys <= Names(blocks)
    ensures Earned(fns, blocks, summaries, order, oracle) && summaries.Keys <= Names(blocks)
    ensures Extends(before, summaries)
    ensures progressed ==> |before| < |summaries|
    ensures !progressed ==> summaries == before && Settled(fns, blocks, outcomes, summaries, oracle)
  {
    summaries, outcomes, order, progressed := before, [], rank, false;
    for i := 0 to |blocks|
      invariant |outcomes| == i
      invariant Earned(fns, blocks, summaries, order, oracle) && summaries.Keys <= Names(blocks)
      invariant Extends(before, summaries)
      invariant if progressed then |before| < |summaries| else before == summaries
      invariant !progressed ==> AgreeUpTo(fns, blocks, i, outcomes, before, oracle)
    {
      ghost var mid := summaries;
      var verdict, promoted;
      verdict, summaries, promoted, order := RunBlock(fns, blocks, blocks[i], oracle, summaries, order);
      StillExtends(before, mid, summaries, blocks, i);
      if !progressed && !promoted { AgreeOneMore(fns, blocks, i, outcomes, verdict, before, oracle); }
      outcomes := outcomes + [verdict];
      progressed := progressed || promoted;
    }
    if !progressed { AgreeOnAll(fns, blocks, outcomes, summaries, oracle); }
  }

  /** Passes over all blocks until one promotes nothing; there is one within `|blocks| + 1` passes,
      so the outcomes are those of the summaries returned, and another pass would repeat them. */
  method RunValidates(fns: Program, blocks: seq<Validate>, oracle: Oracle)
    returns (outcomes: seq<Verdict>, summaries: map<string, Summary>, ghost order: seq<string>)
    ensures Settled(fns, blocks, outcomes, summaries, oracle)
    ensures Earned(fns, blocks, summaries, order, oracle)
  {
    summaries, outcomes, order := map[], [], [];
    var pass, progressed := 0, true;
    NamesBound(blocks);
    while progressed && pass <= |blocks|
      invariant Earned(fns, blocks, summaries, order, oracle)
      invariant summaries.Keys <= Names(blocks) && |summaries| <= |blocks|
      invariant progressed ==> pass <= |summaries|
      invariant !progressed ==> Settled(fns, blocks, outcomes, summaries, oracle)
    {
      outcomes, summaries, progressed, order := RunPass(fns, blocks, oracle, summaries, order);
      pass := pass + 1;
      Fits(summaries.Keys, Names(blocks));
    }
  }

  lemma Fits(a: set<string>, b: set<string>)
    requires a <= b
    ensures |a| <= |b|
  {
    if x :| x in a { Fits(a - {x}, b - {x}); }
  }

  lemma Promote(fns: Program, blocks: seq<Validate>, S: map<string, Summary>, order: seq<string>, v: Validate, oracle: Oracle)
    requires Earned(fns, blocks, S, order, oracle) && v in blocks && v.fn !in S
    requires CheckBlock(fns, v, S, oracle).Proved?
    ensures Earned(fns, blocks, S[v.fn := SummaryOf(fns, v)], order + [v.fn], oracle)
    ensures S[v.fn := SummaryOf(fns, v)].Keys == S.Keys + {v.fn}
  {
    var S2, order2 := S[v.fn := SummaryOf(fns, v)], order + [v.fn];
    RankedInLarger(fns, blocks, S, order, S2, oracle);
    assert order2[..|order|] == order && order2[|order|] == v.fn;
    BackTo(S, order, v.fn, SummaryOf(fns, v));
    RankOne(fns, blocks, S2, order, v, oracle);
    assert order2[..|order|] == order;
    assert forall g :: g in order2 <==> g in order || g == v.fn;
  }

  lemma BackTo(S: map<string, Summary>, order: seq<string>, name: string, s: Summary)
    requires name !in S && S.Keys == set g | g in order
    ensures Restrict(S[name := s], order) == S
  {}

  lemma RankOne(fns: Program, blocks: seq<Validate>, S: map<string, Summary>, order: seq<string>, v: Validate, oracle: Oracle)
    requires Ranked(fns, blocks, S, order, oracle) && v in blocks && v.fn !in order
    requires EarnedBy(fns, v, S, order, v.fn, oracle)
    ensures Ranked(fns, blocks, S, order + [v.fn], oracle)
  {
    var order2 := order + [v.fn];
    assert order2[..|order|] == order && order2[|order|] == v.fn;
  }

  lemma RankedInLarger(
      fns: Program, blocks: seq<Validate>, S: map<string, Summary>, order: seq<string>, S2: map<string, Summary>, oracle: Oracle)
    requires Ranked(fns, blocks, S, order, oracle)
    requires forall g :: g in order ==> g in S && g in S2 && S[g] == S2[g]
    ensures Ranked(fns, blocks, S2, order, oracle)
  {
    if order != [] {
      var n := |order| - 1;
      RankedInLarger(fns, blocks, S, order[..n], S2, oracle);
      var v :| v in blocks && EarnedBy(fns, v, S, order[..n], order[n], oracle);
      assert Restrict(S2, order[..n]) == Restrict(S, order[..n]);
      assert EarnedBy(fns, v, S2, order[..n], order[n], oracle);
    }
  }

  /** The block that earned the summary at rank `k`. */
  lemma EarnedAt(fns: Program, blocks: seq<Validate>, S: map<string, Summary>, order: seq<string>, oracle: Oracle, k: nat)
    returns (v: Validate)
    requires Ranked(fns, blocks, S, order, oracle) && k < |order|
    ensures v in blocks && EarnedBy(fns, v, S, order[..k], order[k], oracle)
  {
    var n := |order| - 1;
    if k == n {
      v :| v in blocks && EarnedBy(fns, v, S, order[..n], order[n], oracle);
    } else {
      v := EarnedAt(fns, blocks, S, order[..n], oracle, k);
      assert order[..n][..k] == order[..k];
    }
  }

  // ---------------------------------------------------------------- soundness of the whole pass

  /** Every clause is free of calls, and every function checked has a regular body. */
  predicate AllCheckable(fns: Program, blocks: seq<Validate>) {
    forall v :: v in blocks ==>
      (forall e :: e in v.entries && (e.0 == "pre" || e.0 == "post") ==> Plain(e.1))
      && (FindFn(fns, v.fn).Some? ==>
            var f := FindFn(fns, v.fn).value; RegularBlock(f.body, ParamNames(f.params), false))
  }

  lemma BlockCheckable(fns: Program, blocks: seq<Validate>, v: Validate)
    requires AllCheckable(fns, blocks) && v in blocks && FindFn(fns, v.fn).Some?
    ensures Checkable(FindFn(fns, v.fn).value, Entries(v.entries, "pre"), Entries(v.entries, "post"))
  {
    EntryIff(v.entries, "pre");
    EntryIff(v.entries, "post");
  }

  /** Every entry of the block under `key` holds. */
  ghost predicate Meets(v: Validate, key: string, env: Env, fns: Program) {
    forall e :: (key, e) in v.entries ==> Holds(e, env, fns)
  }

  lemma MeetsIff(v: Validate, key: string, env: Env, fns: Program)
    ensures Meets(v, key, env, fns) <==> AllHold(Entries(v.entries, key), env, fns)
  {
    EntryIff(v.entries, key);
  }

  /** A value that fits the return type and, if the arguments met every entry `pre`, meets every `post`. */
  ghost predicate Delivers(v: Validate, ret: Ty, env: Env, w: Value, fns: Program) {
    w.IntV? && ret.InRange(w.i) && (Meets(v, "pre", env, fns) ==> Meets(v, "post", env["result" := w], fns))
  }

  /** Every run of `d` within `fuel` that ends delivers such a value. */
  ghost predicate RunsHonour(d: FnDecl, v: Validate, fns: Program, fuel: nat) {
    forall vs: seq<Value>, env: Env, w: Value ::
      |vs| == |d.params| && Bind(d.params, vs, false) == Val(env) && RunBody(d, env, fns, fuel) == Val(w) ==>
        Delivers(v, d.ret, env, w, fns)
  }

  ghost predicate BlockHonoured(fns: Program, v: Validate, fuel: nat) {
    FindFn(fns, v.fn).Some? && RunsHonour(FindFn(fns, v.fn).value, v, fns, fuel)
  }

  lemma HonouredByEntries(d: FnDecl, v: Validate, fns: Program, fuel: nat)
    requires Honours(d, Entries(v.entries, "pre"), Entries(v.entries, "post"), fns, fuel)
    ensures RunsHonour(d, v, fns, fuel)
  {
    forall vs: seq<Value>, env: Env, w: Value
      | |vs| == |d.params| && Bind(d.params, vs, false) == Val(env) && RunBody(d, env, fns, fuel) == Val(w)
      ensures Delivers(v, d.ret, env, w, fns)
    {
      Delivered(v, d.ret, env, w, fns);
    }
  }

  lemma Delivered(v: Validate, ret: Ty, env: Env, w: Value, fns: Program)
    requires w.IntV? && ret.InRange(w.i)
    requires AllHold(Entries(v.entries, "pre"), env, fns) ==> AllHold(Entries(v.entries, "post"), env["result" := w], fns)
    ensures Delivers(v, ret, env, w, fns)
  {
    MeetsIff(v, "pre", env, fns);
    MeetsIff(v, "post", env["result" := w], fns);
  }

  /** Promotion order justifies `pre => post`: each promoted contract is honoured by every run. */
  lemma SummariesHold(fns: Program, blocks: seq<Validate>, S: map<string, Summary>, order: seq<string>, oracle: Oracle, fuel: nat)
    requires Earned(fns, blocks, S, order, oracle) && AllCheckable(fns, blocks) && Honest(oracle)
    ensures SummariesOk(S, fns, fuel)
    decreases fuel
  {
    forall g | g in S ensures SummaryOk(g, S[g], fns, fuel) {
      var k :| 0 <= k < |order| && order[k] == g;
      var v := EarnedAt(fns, blocks, S, order, oracle, k);
      var f, R := FindFn(fns, v.fn).value, Restrict(S, order[..k]);
      BlockCheckable(fns, blocks, v);
      forall j: nat | j < fuel ensures Honours(f, S[g].pre, S[g].post, fns, j) {
        SummariesHold(fns, blocks, S, order, oracle, j);
        assert SummariesOk(R, fns, j);
        ProvedIsHonoured(f, S[g].pre, Task(S[g].post, R, oracle), fns, j);
      }
    }
  }

  /** Every block reported `Proved` is honoured by every run that ends, calls included. */
  lemma ReportedProofsHold(
      fns: Program, blocks: seq<Validate>, S: map<string, Summary>, order: seq<string>, oracle: Oracle, v: Validate, fuel: nat)
    requires Earned(fns, blocks, S, order, oracle) && AllCheckable(fns, blocks) && Honest(oracle)
    requires v in blocks && CheckBlock(fns, v, S, oracle).Proved?
    ensures BlockHonoured(fns, v, fuel)
  {
    SummariesHold(fns, blocks, S, order, oracle, fuel);
    BlockCheckable(fns, blocks, v);
    ProvedIsHonoured(FindFn(fns, v.fn).value, Entries(v.entries, "pre"), Task(Entries(v.entries, "post"), S, oracle), fns, fuel);
    HonouredByEntries(FindFn(fns, v.fn).value, v, fns, fuel);
  }

  /** Every summary is the contract, entry for entry, of a block that is honoured by every run. */
  lemma PromotedAreHonoured(fns: Program, blocks: seq<Validate>, S: map<string, Summary>, order: seq<string>, oracle: Oracle, g: string, fuel: nat)
    returns (v: Validate, preAt: seq<nat>, postAt: seq<nat>)
    requires Earned(fns, blocks, S, order, oracle) && AllCheckable(fns, blocks) && Honest(oracle) && g in S
    ensures v in blocks && v.fn == g && BlockHonoured(fns, v, fuel)
    ensures Selected(v.entries, "pre", S[g].pre, preAt) && Selected(v.entries, "post", S[g].post, postAt)
  {
    var k :| 0 <= k < |order| && order[k] == g;
    v := EarnedAt(fns, blocks, S, order, oracle, k);
    preAt := EntriesSelect(v.entries, "pre");
    postAt := EntriesSelect(v.entries, "post");
    SummariesHold(fns, blocks, S, order, oracle, fuel + 1);
    HonouredByEntries(FindFn(fns, v.fn).value, v, fns, fuel);
  }

  /** Which verdict a block gets: no function of that name; a clause names something that is neither a
      parameter nor `result`; or the walker's answer on exactly the block's own clauses. */
  lemma BlockVerdict(fns: Program, v: Validate, S: map<string, Summary>, oracle: Oracle) returns (pre: seq<Expr>, post: seq<Expr>, preAt: seq<nat>, postAt: seq<nat>)
    ensures Selected(v.entries, "pre", pre, preAt) && Selected(v.entries, "post", post, postAt)
    ensures (CheckBlock(fns, v, S, oracle) == NoSuchFunction) <==> (forall f :: f in fns ==> f.name != v.fn)
    ensures FindFn(fns, v.fn).Some? ==>
              CheckBlock(fns, v, S, oracle) == CheckContract(FindFn(fns, v.fn).value, pre, Task(post, S, oracle))
  {
    pre, post := Entries(v.entries, "pre"), Entries(v.entries, "post");
    preAt := EntriesSelect(v.entries, "pre");
    postAt := EntriesSelect(v.entries, "post");
  }
}
