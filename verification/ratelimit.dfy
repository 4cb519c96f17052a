/** The fixed-window rate limiter: a bounded table of windows, and what any history of calls is let
    through. */
module RateLimit {
  import opened Prelude

  const MAX_TRACKED := 10_000

  /** When a key's window started, and how many calls it has let through. */
  datatype Window = Window(start: int, count: nat)

  // ---------------------------------------------------------------- one key

  /** One call on one key's window. */
  function Admit(w: Option<Window>, now: int, max: nat, length: nat): (Window, bool) {
    var cur := if w.None? || now - w.value.start >= length then Window(now, 0) else w.value;
    if cur.count >= max then (cur, false) else (Window(cur.start, cur.count + 1), true)
  }

  // ---------------------------------------------------------------- the table

  type Table<K(!new)> = map<K, Window>

  ghost predicate Oldest<K(!new)>(t: Table<K>, k: K) {
    k in t && forall j :: j in t ==> t[k].start <= t[j].start
  }

  /** Room for a new key is made by dropping a key whose window started first; which one, when several
      did, is not determined. */
  ghost predicate MadeRoom<K(!new)>(t: Table<K>, key: K, u: Table<K>) {
    if key !in t && |t| >= MAX_TRACKED then exists old_ :: Oldest(t, old_) && u == t - {old_} else u == t
  }

  function Entry<K(!new, ==)>(t: Table<K>, key: K): Option<Window> { if key in t then Some(t[key]) else None }

  ghost predicate Checked<K(!new)>(t: Table<K>, key: K, now: int, max: nat, length: nat, after: Table<K>, ok: bool) {
    exists u :: MadeRoom(t, key, u)
                && (var r := Admit(Entry(u, key), now, max, length); after == u[key := r.0] && ok == r.1)
  }

  class RateLimiter<K(!new, ==)> {
    var windows: map<K, Window>

    constructor ()
      ensures windows == map[]
    {
      windows := map[];
    }

    /** The key whose window started first, by a scan of the whole table. */
    method FindOldest() returns (oldest: K)
      requires windows != map[]
      ensures Oldest(windows, oldest)
    {
      oldest :| oldest in windows;
      var todo := windows.Keys - {oldest};
      while todo != {}
        invariant todo <= windows.Keys && oldest in windows
        invariant forall k :: k in windows && k !in todo ==> windows[oldest].start <= windows[k].start
      {
        var k :| k in todo;
        todo := todo - {k};
        if windows[k].start < windows[oldest].start { oldest := k; }
      }
    }

    /** One call: `now` is read from a clock that does not go back. */
    method Check(key: K, max: nat, length: nat, now: int) returns (ok: bool)
      modifies this
      ensures Checked(old(windows), key, now, max, length, windows, ok)
    {
      ghost var before := windows;
      if key !in windows && |windows| >= MAX_TRACKED {
        var oldest := FindOldest();
        windows := windows - {oldest};
      }
      ghost var room := windows;
      if key !in windows { windows := windows[key := Window(now, 0)]; }
      if now - windows[key].start >= length { windows := windows[key := Window(now, 0)]; }
      if windows[key].count >= max {
        ok := false;
      } else {
        windows := windows[key := Window(windows[key].start, windows[key].count + 1)];
        ok := true;
      }
      assert MadeRoom(before, key, room);
      assert windows == room[key := Admit(Entry(room, key), now, max, length).0];
    }
  }

  // ---------------------------------------------------------------- histories

  datatype Event<K(!new)> = Event(key: K, now: int, ok: bool, after: Table<K>)

  /** The clock never goes back, starting from `from`. */
  predicate Ordered<K(!new)>(evs: seq<Event<K>>, from: int) {
    evs == [] || (from <= evs[0].now && Ordered(evs[1..], evs[0].now))
  }

  /** Each event is what one call made of the table before it. */
  ghost predicate History<K(!new)>(t: Table<K>, evs: seq<Event<K>>, max: nat, length: nat)
    decreases evs
  {
    evs == [] || (Checked(t, evs[0].key, evs[0].now, max, length, evs[0].after, evs[0].ok) && History(evs[0].after, evs[1..], max, length))
  }

  lemma {:induction false} StaysWithinCap<K(!new)>(t: Table<K>, evs: seq<Event<K>>, max: nat, length: nat, i: nat)
    requires History(t, evs, max, length) && |t| <= MAX_TRACKED && i < |evs|
    ensures |evs[i].after| <= 10_000
    decreases i
  {
    OneWithinCap(t, evs[0].key, evs[0].now, max, length, evs[0].after, evs[0].ok);
    if i > 0 { StaysWithinCap(evs[0].after, evs[1..], max, length, i - 1); }
  }

  lemma OneWithinCap<K(!new)>(t: Table<K>, key: K, now: int, max: nat, length: nat, after: Table<K>, ok: bool)
    requires Checked(t, key, now, max, length, after, ok) && |t| <= MAX_TRACKED
    ensures |after| <= MAX_TRACKED
  {
    var u :| MadeRoom(t, key, u) && (var r := Admit(Entry(u, key), now, max, length); after == u[key := r.0] && ok == r.1);
    if key !in t && |t| >= MAX_TRACKED {
      var old_ :| Oldest(t, old_) && u == t - {old_};
      assert u.Keys == t.Keys - {old_};
      assert |t.Keys| == |t|;
      assert |u| == |u.Keys| == |t.Keys| - 1;
    }
    if key in u { assert after.Keys == u.Keys; assert |after| == |after.Keys| == |u.Keys|; }
    else { assert after.Keys == u.Keys + {key}; assert |after| == |after.Keys| == |u.Keys| + 1; }
  }

  // ---------------------------------------------------------------- how much gets through

  /** Calls on `key` let through at a time from `from` up to, not including, `from + length`. */
  function Let<K(!new, ==)>(evs: seq<Event<K>>, key: K, from: int, length: nat): nat {
    if evs == [] then 0
    else
      var e := evs[0];
      (if e.key == key && e.ok && from <= e.now < from + length then 1 else 0) + Let(evs[1..], key, from, length)
  }

  /** The key keeps its place in the table once it has one. */
  predicate NeverDropped<K(!new, ==)>(t: Table<K>, evs: seq<Event<K>>, key: K)
    decreases evs
  {
    evs == [] || ((key in t ==> key in evs[0].after) && NeverDropped(evs[0].after, evs[1..], key))
  }

  /** How many calls of an interval may have been let through, given the key's window now: the call
      that opened a window before the interval is not one of them. */
  function Allowance(w: Window, max: nat, from: int, length: nat): int {
    if w.start < from then w.count - 1
    else if w.start < from + length then max - 1 + w.count
    else 2 * max - 1
  }

  /** `n` calls of the interval have been let through by the time `last`. */
  ghost predicate Within<K(!new)>(t: Table<K>, key: K, n: nat, max: nat, from: int, length: nat, last: int) {
    (last < from ==> n == 0)
    && (if key in t then t[key].start <= last && 1 <= t[key].count <= max && n <= Allowance(t[key], max, from, length) else n == 0)
  }

  lemma OneCall<K(!new)>(t: Table<K>, e: Event<K>, key: K, n: nat, max: nat, from: int, length: nat, last: int)
    requires Checked(t, e.key, e.now, max, length, e.after, e.ok) && last <= e.now && max > 0
    requires Within(t, key, n, max, from, length, last) && (key in t ==> key in e.after)
    ensures Within(e.after, key, n + Let([e], key, from, length), max, from, length, e.now)
  {
    var u :| MadeRoom(t, e.key, u) && (var r := Admit(Entry(u, e.key), e.now, max, length); e.after == u[e.key := r.0] && e.ok == r.1);
    assert [e][1..] == [] && Let([e][1..], key, from, length) == 0;
    if key != e.key {
      assert key in e.after <==> key in u;
      assert key in t <==> key in u;
    }
  }

  lemma {:induction false} CountWithin<K(!new)>(
      t: Table<K>, evs: seq<Event<K>>, key: K, n: nat, max: nat, from: int, length: nat, last: int)
    requires History(t, evs, max, length) && Ordered(evs, last) && NeverDropped(t, evs, key) && max > 0
    requires Within(t, key, n, max, from, length, last)
    ensures n + Let(evs, key, from, length) <= 2 * max - 1
    decreases evs
  {
    if evs != [] {
      var e := evs[0];
      OneCall(t, e, key, n, max, from, length, last);
      assert [e][1..] == [];
      CountWithin(e.after, evs[1..], key, n + Let([e], key, from, length), max, from, length, e.now);
    }
  }

  lemma {:induction false} NoneLet<K(!new)>(t: Table<K>, evs: seq<Event<K>>, key: K, from: int, length: nat)
    requires History(t, evs, 0, length)
    ensures Let(evs, key, from, length) == 0
    decreases evs
  {
    if evs != [] { NoneLet(evs[0].after, evs[1..], key, from, length); }
  }

  /** In any stretch as long as a window, a key that is not dropped gets fewer than twice its limit
      through. */
  lemma LessThanTwiceTheLimit<K(!new)>(evs: seq<Event<K>>, key: K, max: nat, from: int, length: nat, clock: int)
    requires History(map[], evs, max, length) && Ordered(evs, clock) && NeverDropped(map[], evs, key)
    ensures Let(evs, key, from, length) <= if max == 0 then 0 else 2 * max - 1
  {
    if max == 0 { NoneLet(map[], evs, key, from, length); }
    else { CountWithin(map[], evs, key, 0, max, from, length, clock); }
  }

  // ---------------------------------------------------------------- few keys

  /** A limiter for one key that forgets nothing: its window after the key's calls in `evs`. */
  function Alone<K(!new, ==)>(evs: seq<Event<K>>, key: K, max: nat, length: nat): Option<Window> {
    if evs == [] then None
    else
      var e := evs[|evs| - 1];
      var before := Alone(evs[..|evs| - 1], key, max, length);
      if e.key == key then Some(Admit(before, e.now, max, length).0) else before
  }

  function Keys<K(!new, ==)>(evs: seq<Event<K>>): set<K> { set e | e in evs :: e.key }

  function TableAfter<K(!new)>(evs: seq<Event<K>>): Table<K> { if evs == [] then map[] else evs[|evs| - 1].after }

  lemma {:induction false} HistoryPrefix<K(!new)>(t: Table<K>, evs: seq<Event<K>>, max: nat, length: nat)
    requires History(t, evs, max, length) && evs != []
    ensures History(t, evs[..|evs| - 1], max, length)
    ensures var e := evs[|evs| - 1]; var before := if |evs| == 1 then t else evs[|evs| - 2].after;
            Checked(before, e.key, e.now, max, length, e.after, e.ok)
    decreases evs
  {
    if |evs| > 1 {
      HistoryPrefix(evs[0].after, evs[1..], max, length);
      assert evs[1..][..|evs| - 2] == evs[..|evs| - 1][1..];
    }
  }

  /** With no more keys than the table holds, nothing is dropped and the table holds each key's own
      window. */
  lemma {:induction false} NothingDropped<K(!new)>(evs: seq<Event<K>>, max: nat, length: nat)
    requires History(map[], evs, max, length) && |Keys(evs)| <= MAX_TRACKED
    ensures var t := TableAfter(evs);
            t.Keys == Keys(evs) && forall k :: Entry(t, k) == Alone(evs, k, max, length)
    decreases |evs|
  {
    if evs != [] {
      var n := |evs| - 1;
      var init, e := evs[..n], evs[n];
      HistoryPrefix(map[], evs, max, length);
      assert Keys(evs) == Keys(init) + {e.key};
      SubsetSize(Keys(init), Keys(evs));
      NothingDropped(init, max, length);
      assert TableAfter(init) == if n == 0 then map[] else evs[n - 1].after;
      EachStaysAlone(evs, init, e, max, length);
    }
  }

  lemma EachStaysAlone<K(!new)>(evs: seq<Event<K>>, init: seq<Event<K>>, e: Event<K>, max: nat, length: nat)
    requires |evs| == |init| + 1 && evs[..|init|] == init && evs[|init|] == e && |Keys(init) + {e.key}| <= MAX_TRACKED
    requires Checked(TableAfter(init), e.key, e.now, max, length, e.after, e.ok) && TableAfter(init).Keys == Keys(init)
    requires forall k :: Entry(TableAfter(init), k) == Alone(init, k, max, length)
    ensures e.after.Keys == Keys(init) + {e.key} && forall k :: Entry(e.after, k) == Alone(evs, k, max, length)
  {
    LastCall(init, e, max, length);
    forall k ensures Entry(e.after, k) == Alone(evs, k, max, length) {
      assert Entry(TableAfter(init), k) == Alone(init, k, max, length);
    }
  }

  lemma LastCall<K(!new)>(init: seq<Event<K>>, e: Event<K>, max: nat, length: nat)
    requires Checked(TableAfter(init), e.key, e.now, max, length, e.after, e.ok)
    requires |Keys(init) + {e.key}| <= MAX_TRACKED && TableAfter(init).Keys == Keys(init)
    ensures var r := Admit(Entry(TableAfter(init), e.key), e.now, max, length);
            e.after == TableAfter(init)[e.key := r.0] && e.ok == r.1
  {
    var t := TableAfter(init);
    if e.key !in t { assert |Keys(init) + {e.key}| == |Keys(init)| + 1; assert |t| == |t.Keys|; }
  }

  lemma SubsetSize<T>(a: set<T>, b: set<T>)
    requires a <= b
    ensures |a| <= |b|
  {
    assert b == a + (b - a);
  }

  /** Every answer is the one a limiter of the key's own would have given: keys do not disturb each
      other. */
  lemma AgreesWithUnbounded<K(!new)>(evs: seq<Event<K>>, max: nat, length: nat, i: nat)
    requires History(map[], evs, max, length) && |Keys(evs)| <= MAX_TRACKED && i < |evs|
    ensures evs[i].ok == Admit(Alone(evs[..i], evs[i].key, max, length), evs[i].now, max, length).1
    decreases |evs| - i
  {
    if i == |evs| - 1 { AgreesAtEnd(evs, max, length); } else { AgreesInPrefix(evs, max, length, i); }
  }

  lemma {:induction false} AgreesInPrefix<K(!new)>(evs: seq<Event<K>>, max: nat, length: nat, i: nat)
    requires History(map[], evs, max, length) && |Keys(evs)| <= MAX_TRACKED && i < |evs| - 1
    ensures evs[i].ok == Admit(Alone(evs[..i], evs[i].key, max, length), evs[i].now, max, length).1
    decreases |evs|
  {
    var init := evs[..|evs| - 1];
    HistoryPrefix(map[], evs, max, length);
    SubsetSize(Keys(init), Keys(evs));
    assert init[..i] == evs[..i];
    if i == |init| - 1 { AgreesAtEnd(init, max, length); } else { AgreesInPrefix(init, max, length, i); }
  }

  lemma AgreesAtEnd<K(!new)>(evs: seq<Event<K>>, max: nat, length: nat)
    requires History(map[], evs, max, length) && |Keys(evs)| <= MAX_TRACKED && evs != []
    ensures var i := |evs| - 1; evs[i].ok == Admit(Alone(evs[..i], evs[i].key, max, length), evs[i].now, max, length).1
  {
    var n := |evs| - 1;
    HistoryPrefix(map[], evs, max, length);
    assert TableAfter(evs[..n]) == if n == 0 then map[] else evs[n - 1].after;
    assert Keys(evs) == Keys(evs[..n]) + {evs[n].key};
    AgreesAfter(evs[..n], evs[n], max, length);
  }

  lemma AgreesAfter<K(!new)>(init: seq<Event<K>>, e: Event<K>, max: nat, length: nat)
    requires History(map[], init, max, length) && |Keys(init) + {e.key}| <= MAX_TRACKED
    requires Checked(TableAfter(init), e.key, e.now, max, length, e.after, e.ok)
    ensures e.ok == Admit(Alone(init, e.key, max, length), e.now, max, length).1
  {
    SubsetSize(Keys(init), Keys(init) + {e.key});
    NothingDropped(init, max, length);
    LastCall(init, e, max, length);
  }

  // ---------------------------------------------------------------- which calls get through

  /** The times of the calls on `key`, in order. */
  function Times<K(!new, ==)>(evs: seq<Event<K>>, key: K): seq<int> {
    if evs == [] then []
    else
      var n := |evs| - 1;
      Times(evs[..n], key) + if evs[n].key == key then [evs[n].now] else []
  }

  /** The call that opened the window of call `n`: a window lasts `length` from its first call on, and the
      first call after it opens the next. */
  function Opening(times: seq<int>, n: nat, length: nat): (s: nat)
    requires n < |times|
    ensures s <= n
  {
    if n == 0 then 0
    else
      var s := Opening(times, n - 1, length);
      if times[n] - times[s] >= length then n else s
  }

  function Least(a: nat, b: nat): nat { if a < b then a else b }

  lemma {:induction false} OpeningPrefix(times: seq<int>, more: seq<int>, n: nat, length: nat)
    requires n < |times| && times <= more
    ensures Opening(times, n, length) == Opening(more, n, length)
  {
    if n > 0 { OpeningPrefix(times, more, n - 1, length); }
  }

  /** One key's window is that of its last call, with as many calls counted as were made in it, up to the
      limit: a refused call neither counts nor opens a window. */
  lemma {:induction false} WindowIs<K(!new)>(evs: seq<Event<K>>, key: K, max: nat, length: nat)
    ensures var ts := Times(evs, key);
            Alone(evs, key, max, length)
            == if ts == [] then None else var s := Opening(ts, |ts| - 1, length); Some(Window(ts[s], Least(max, |ts| - s)))
  {
    if evs != [] {
      var n := |evs| - 1;
      WindowIs(evs[..n], key, max, length);
      var before, after := Times(evs[..n], key), Times(evs, key);
      if evs[n].key != key {
        assert after == before;
      } else if before == [] {
        assert after == [evs[n].now];
      } else {
        assert before <= after && after[|before|] == evs[n].now;
        OpeningPrefix(before, after, |before| - 1, length);
      }
    }
  }

  /** Of the calls in each window of a key the first `max` get through, and no other. */
  lemma FirstOfEachWindow<K(!new)>(evs: seq<Event<K>>, max: nat, length: nat, i: nat)
    requires History(map[], evs, max, length) && |Keys(evs)| <= MAX_TRACKED && i < |evs|
    ensures var ts := Times(evs[..i + 1], evs[i].key);
            ts != [] && (evs[i].ok <==> |ts| - 1 - Opening(ts, |ts| - 1, length) < max)
  {
    var before, key := evs[..i], evs[i].key;
    AgreesWithUnbounded(evs, max, length, i);
    WindowIs(before, key, max, length);
    assert evs[..i + 1][..i] == before;
    var ts, more := Times(before, key), Times(evs[..i + 1], key);
    assert more == ts + [evs[i].now];
    if ts != [] { OpeningPrefix(ts, more, |ts| - 1, length); }
  }

  // ---------------------------------------------------------------- the bound is reached

  function Only(w: Window): Table<string> { map["k" := w] }

  /** `n` calls at the same time in the same window, all let through. */
  function Burst(w: Window, now: int, n: nat): seq<Event<string>>
    decreases n
  {
    if n == 0 then []
    else var v := Window(w.start, w.count + 1); [Event("k", now, true, Only(v))] + Burst(v, now, n - 1)
  }

  /** A run of one key, starting with the table `t` at the time `clock`, that lets `n` calls through in
      the interval. */
  ghost predicate Lets(t: Table<string>, evs: seq<Event<string>>, max: nat, length: nat, clock: int, from: int, n: nat) {
    History(t, evs, max, length) && Ordered(evs, clock) && NeverDropped(t, evs, "k") && Let(evs, "k", from, length) == n
  }

  /** One more call in front. */
  lemma Prepend(t: Table<string>, e: Event<string>, rest: seq<Event<string>>,
                max: nat, length: nat, clock: int, from: int, n: nat)
    requires Checked(t, e.key, e.now, max, length, e.after, e.ok) && e.key == "k" && e.ok
    requires clock <= e.now && "k" in e.after && Lets(e.after, rest, max, length, e.now, from, n)
    ensures Lets(t, [e] + rest, max, length, clock, from, n + if from <= e.now < from + length then 1 else 0)
  {
    var evs := [e] + rest;
    assert evs[0] == e && evs[1..] == rest;
  }

  lemma {:induction false} BurstWorks(w: Window, now: int, n: nat, rest: seq<Event<string>>, max: nat, length: nat, from: int, m: nat)
    requires w.start <= now < w.start + length && w.count + n <= max
    requires Lets(Only(Window(w.start, w.count + n)), rest, max, length, now, from, m)
    ensures Lets(Only(w), Burst(w, now, n) + rest, max, length, now, from,
                 m + if from <= now < from + length then n else 0)
    decreases n
  {
    if n == 0 {
      assert [] + rest == rest;
    } else {
      var v := Window(w.start, w.count + 1);
      var e := Event("k", now, true, Only(v));
      BurstWorks(v, now, n - 1, rest, max, length, from, m);
      OneStep(w, now, max, length);
      var more := Burst(v, now, n - 1) + rest;
      Prepend(Only(w), e, more, max, length, now, from, m + if from <= now < from + length then n - 1 else 0);
      FirstOfBurst(w, now, n, rest, e, more);
    }
  }

  lemma FirstOfBurst(w: Window, now: int, n: nat, rest: seq<Event<string>>, e: Event<string>, more: seq<Event<string>>)
    requires n > 0 && e == Event("k", now, true, Only(Window(w.start, w.count + 1)))
    requires more == Burst(Window(w.start, w.count + 1), now, n - 1) + rest
    ensures Burst(w, now, n) + rest == [e] + more
  {}

  /** A call in an open window that has room. */
  lemma OneStep(w: Window, now: int, max: nat, length: nat)
    requires w.start <= now < w.start + length && w.count < max
    ensures Checked(Only(w), "k", now, max, length, Only(Window(w.start, w.count + 1)), true)
  {
    assert MadeRoom(Only(w), "k", Only(w));
    assert Only(w)["k" := Window(w.start, w.count + 1)] == Only(Window(w.start, w.count + 1));
  }

  /** A call that opens a window. */
  lemma OneOpening(t: Table<string>, now: int, max: nat, length: nat)
    requires t == map[] || (exists w :: t == Only(w) && now - w.start >= length)
    requires max > 0
    ensures Checked(t, "k", now, max, length, Only(Window(now, 1)), true)
  {
    assert MadeRoom(t, "k", t);
    assert t["k" := Window(now, 1)] == Only(Window(now, 1));
  }

  /** One call at 0, the rest of the limit just before the window closes, and a full limit right after:
      one less than twice the limit within one window's length. */
  lemma BoundIsReached(max: nat, length: nat) returns (evs: seq<Event<string>>)
    requires max > 0 && length > 1
    ensures Lets(map[], evs, max, length, 0, length - 1, 2 * max - 1)
  {
    var from := length - 1;
    var fresh_, full := Window(length, 1), Window(0, max);
    assert Lets(Only(Window(length, max)), [], max, length, length, from, 0);
    BurstWorks(fresh_, length, max - 1, [], max, length, from, 0);
    var last := Burst(fresh_, length, max - 1) + [];
    OneOpening(Only(full), length, max, length);
    Prepend(Only(full), Event("k", length, true, Only(fresh_)), last, max, length, from, from, max - 1);
    var second := [Event("k", length, true, Only(fresh_))] + last;
    BurstWorks(Window(0, 1), from, max - 1, second, max, length, from, max);
    var first := Burst(Window(0, 1), from, max - 1) + second;
    OrderedFrom(first, 0, from);
    OneOpening(map[], 0, max, length);
    Prepend(map[], Event("k", 0, true, Only(Window(0, 1))), first, max, length, 0, from, 2 * max - 1);
    evs := [Event("k", 0, true, Only(Window(0, 1)))] + first;
  }

  lemma OrderedFrom(evs: seq<Event<string>>, earlier: int, from: int)
    requires Ordered(evs, from) && earlier <= from
    ensures Ordered(evs, earlier)
  {}
}
