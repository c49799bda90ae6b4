/** Graham's bound for the simulated schedule: with `k = q + 1` threads, total gas `W` and
    critical path `CP`, the makespan `T` satisfies `k * T <= W + q * CP`. */
module Graham {
  import opened GraphModel
  import opened ListSchedule

  /** `n * x`, as a sum: keeps products out of the larger proofs. */
  ghost function Times(n: nat, x: int): int {
    if n == 0 then 0 else Times(n - 1, x) + x
  }

  lemma {:induction false} TimesIsProduct(n: nat, x: int)
    ensures Times(n, x) == n * x
  {
    if n != 0 {
      TimesIsProduct(n - 1, x);
    }
  }

  lemma {:induction false} TimesAdds(n: nat, x: int, y: int)
    ensures Times(n, x + y) == Times(n, x) + Times(n, y)
  {
    if n != 0 {
      TimesAdds(n - 1, x, y);
    }
  }

  lemma {:induction false} TimesMonotone(n: nat, x: int, y: int)
    requires x <= y
    ensures Times(n, x) <= Times(n, y)
  {
    if n != 0 {
      TimesMonotone(n - 1, x, y);
    }
  }

  lemma {:induction false} TimesCount(m: nat, n: nat, x: nat)
    requires m <= n
    ensures Times(m, x) <= Times(n, x)
  {
    if m < n {
      TimesCount(m, n - 1, x);
    }
  }

  // ---------------------------------------------------------------- work done so far

  /** Gas spent by the running transactions up to time `t`. */
  ghost function RunWork(threads: seq<Thread>, t: nat): int {
    if threads == [] then 0 else RunWork(threads[1..], t) + if threads[0].Busy? then t - threads[0].start else 0
  }

  ghost function BusyCount(threads: seq<Thread>): (c: nat)
    ensures c <= |threads|
  {
    if threads == [] then 0 else BusyCount(threads[1..]) + if threads[0].Busy? then 1 else 0
  }

  ghost function Work(g: Nodes, s: Sim): int {
    GasOf(g, s.done, |g|) + RunWork(s.threads, s.time)
  }

  lemma {:induction false} RunWorkAdvances(threads: seq<Thread>, t: nat, d: nat)
    ensures RunWork(threads, t + d) == RunWork(threads, t) + Times(BusyCount(threads), d)
  {
    if threads != [] {
      RunWorkAdvances(threads[1..], t, d);
    }
  }

  /** Changing one thread changes the work by what that thread contributes. */
  lemma {:induction false} RunWorkUpdates(threads: seq<Thread>, th: nat, v: Thread, t: nat)
    requires th < |threads|
    ensures RunWork(threads[th := v], t) == RunWork(threads, t)
      - (if threads[th].Busy? then t - threads[th].start else 0) + if v.Busy? then t - v.start else 0
  {
    if th == 0 {
      assert threads[th := v][1..] == threads[1..];
    } else {
      assert threads[th := v][1..] == threads[1..][th - 1 := v];
      RunWorkUpdates(threads[1..], th - 1, v, t);
    }
  }

  lemma {:induction false} BusyCountBounds(threads: seq<Thread>)
    ensures (forall th :: 0 <= th < |threads| ==> threads[th].Busy?) ==> BusyCount(threads) == |threads|
    ensures (exists th :: 0 <= th < |threads| && threads[th].Busy?) ==> BusyCount(threads) >= 1
    ensures (forall th :: 0 <= th < |threads| ==> threads[th].Idle?) ==>
      BusyCount(threads) == 0 && forall t :: RunWork(threads, t) == 0
  {
    if threads != [] {
      BusyCountBounds(threads[1..]);
      assert forall th :: 0 < th < |threads| ==> threads[th] == threads[1..][th - 1];
    }
  }

  // ---------------------------------------------------------------- the invariant

  /** No path out of a node that still has to finish can push the bound over. */
  ghost predicate Fits(q: nat, t: int, horizon: int, work: int, cp: nat) {
    t + Times(q, horizon) <= work + Times(q, cp)
  }

  ghost predicate RunningFits(g: Nodes, q: nat, cp: nat, s: Sim, work: int) {
    forall th :: 0 <= th < |s.threads| && s.threads[th].Busy? && s.threads[th].tx < |g| ==>
      Fits(q, s.time, s.threads[th].start + g[s.threads[th].tx].suffix, work, cp)
  }

  ghost predicate WaitingFits(g: Nodes, q: nat, cp: nat, s: Sim, work: int) {
    forall i: nat :: i < |g| && i !in s.started ==> Fits(q, s.time, s.time + g[i].suffix, work, cp)
  }

  ghost predicate Bounded(g: Nodes, q: nat, cp: nat, s: Sim) {
    var work := Work(g, s);
    && s.time <= work <= Times(q + 1, s.time)
    && Fits(q, s.time, s.time, work, cp)
    && RunningFits(g, q, cp, s, work)
    && WaitingFits(g, q, cp, s, work)
  }

  lemma InitBounded(g: Nodes, q: nat, cp: nat, s: Sim)
    requires IsLargestSuffix(g, cp)
    requires s.time == 0 && s.done == {} && forall th :: 0 <= th < |s.threads| ==> s.threads[th].Idle?
    ensures Bounded(g, q, cp, s)
  {
    BusyCountBounds(s.threads);
    NothingDone(g, |g|);
    TimesMonotone(q, 0, cp);
    TimesIsProduct(q + 1, 0);
    forall i: nat | i < |g| ensures Fits(q, 0, g[i].suffix, 0, cp) {
      TimesMonotone(q, g[i].suffix, cp);
    }
  }

  lemma {:induction false} NothingDone(g: Nodes, i: nat)
    requires i <= |g|
    ensures GasOf(g, {}, i) == 0
  {
    if i != 0 {
      NothingDone(g, i - 1);
    }
  }

  lemma AssignBounded(g: Nodes, q: nat, cp: nat, s: Sim, th: nat, i: nat)
    requires Bounded(g, q, cp, s) && i < |g| && i !in s.started && th < |s.threads| && s.threads[th].Idle?
    ensures Bounded(g, q, cp, Assign(g, s, th, i))
  {
    RunWorkUpdates(s.threads, th, Busy(i, s.time, s.time + g[i].gas), s.time);
  }

  lemma CompleteBounded(g: Nodes, q: nat, cp: nat, s: Sim, th: nat, remaining: seq<nat>, ready: set<nat>)
    requires Bounded(g, q, cp, s) && th < |s.threads| && s.threads[th].Busy? && s.threads[th].end == s.time
    requires s.threads[th].tx < |g| && s.threads[th].tx !in s.done
      && s.threads[th].end == s.threads[th].start + g[s.threads[th].tx].gas
    ensures Bounded(g, q, cp, Complete(s, th, remaining, ready))
  {
    RunWorkUpdates(s.threads, th, Idle, s.time);
    GasOfAdds(g, s.done, s.threads[th].tx, |g|);
  }

  // ---------------------------------------------------------------- time advances

  /** With an empty heap, a waiting node has a running ancestor whose remaining suffix covers its own. */
  lemma {:induction false} RunningAncestor(g: Nodes, rank: seq<nat>, s: Sim, i: nat) returns (th: nat)
    requires Linked(g) && Ranked(g, rank) && Suffixes(g) && Sched(g, s) && s.ready == {} && i < |g| && i !in s.started
    ensures th < |s.threads| && s.threads[th].Busy? && s.threads[th].tx < |g|
    ensures s.threads[th].end == s.threads[th].start + g[s.threads[th].tx].gas
    ensures g[s.threads[th].tx].suffix >= g[s.threads[th].tx].gas + g[i].suffix
    decreases rank[i]
  {
    assert !AllDone(g[i].parents, s.done);
    var p :| p in g[i].parents && p !in s.done;
    ParentLink(g, p, i);
    assert SuffixAt(g, p);
    if p in s.started {
      assert IsLogged(s.order, p);
      var a :| 0 <= a < |s.order| && s.order[a].tx == p;
      assert EntryOk(g, s, s.order[a]);
      th := s.order[a].thread;
    } else {
      th := RunningAncestor(g, rank, s, p);
    }
  }

  lemma RunningStillFits(g: Nodes, q: nat, cp: nat, s: Sim, t: nat, work': int)
    requires Bounded(g, q, cp, s) && s.time <= t && work' >= Work(g, s) + (t - s.time)
    ensures RunningFits(g, q, cp, s.(time := t), work')
  {
  }

  /** All threads busy: the work grows by `k` per time unit and covers every waiting node. */
  lemma WaitingWhileFull(g: Nodes, q: nat, cp: nat, s: Sim, t: nat, work': int)
    requires Bounded(g, q, cp, s) && s.time <= t && work' == Work(g, s) + Times(q + 1, t - s.time)
    ensures WaitingFits(g, q, cp, s.(time := t), work') && Fits(q, t, t, work', cp)
  {
    var d := t - s.time;
    TimesAdds(q, s.time, d);
    forall i: nat | i < |g| && i !in s.started ensures Fits(q, t, t + g[i].suffix, work', cp) {
      assert Fits(q, s.time, s.time + g[i].suffix, Work(g, s), cp);
      TimesAdds(q, s.time + g[i].suffix, d);
      assert s.time + g[i].suffix + d == t + g[i].suffix;
    }
  }

  /** Some thread idle: every waiting node hides behind a running one. */
  lemma WaitingWhileIdle(g: Nodes, rank: seq<nat>, q: nat, cp: nat, s: Sim, t: nat, work': int)
    requires Linked(g) && Ranked(g, rank) && Suffixes(g) && Sched(g, s) && s.ready == {} && NoneEndsBefore(s, t)
    requires RunningFits(g, q, cp, s.(time := t), work')
    ensures WaitingFits(g, q, cp, s.(time := t), work')
  {
    forall i: nat | i < |g| && i !in s.started ensures Fits(q, t, t + g[i].suffix, work', cp) {
      var th := RunningAncestor(g, rank, s, i);
      TimesMonotone(q, t + g[i].suffix, s.threads[th].start + g[s.threads[th].tx].suffix);
    }
  }

  lemma RunningBoundsTime(g: Nodes, q: nat, cp: nat, s: Sim, t: nat, work': int, th: nat)
    requires Suffixes(g) && Sched(g, s) && NoneEndsBefore(s, t) && th < |s.threads| && s.threads[th].Busy?
    requires RunningFits(g, q, cp, s.(time := t), work')
    ensures Fits(q, t, t, work', cp)
  {
    assert Running(s, th);
    assert EntryOk(g, s, Entry(th, s.threads[th].tx, s.threads[th].start, s.threads[th].end));
    assert SuffixAt(g, s.threads[th].tx);
    TimesMonotone(q, t, s.threads[th].start + g[s.threads[th].tx].suffix);
  }

  ghost predicate AllBusy(threads: seq<Thread>) {
    forall th :: 0 <= th < |threads| ==> threads[th].Busy?
  }

  ghost predicate SomeBusy(threads: seq<Thread>) {
    exists th :: 0 <= th < |threads| && threads[th].Busy?
  }

  /** As time advances by `d`, the work grows by at least `d` and at most `k * d`; by exactly `k * d` when all threads
      are busy. */
  lemma WorkAdvances(g: Nodes, k: nat, s: Sim, d: nat)
    requires |s.threads| == k && SomeBusy(s.threads)
    ensures Work(g, s) + d <= Work(g, s.(time := s.time + d)) <= Work(g, s) + Times(k, d)
    ensures AllBusy(s.threads) ==> Work(g, s.(time := s.time + d)) == Work(g, s) + Times(k, d)
  {
    var busy := BusyCount(s.threads);
    RunWorkAdvances(s.threads, s.time, d);
    BusyCountBounds(s.threads);
    TimesCount(1, busy, d);
    TimesCount(busy, k, d);
  }

  lemma AdvanceFull(g: Nodes, q: nat, cp: nat, s: Sim, t: nat)
    requires Bounded(g, q, cp, s) && |s.threads| == q + 1 && s.time <= t && AllBusy(s.threads)
    ensures Bounded(g, q, cp, s.(time := t))
  {
    var work' := Work(g, s.(time := t));
    assert s.threads[0].Busy?;
    WorkAdvances(g, q + 1, s, t - s.time);
    TimesAdds(q + 1, s.time, t - s.time);
    RunningStillFits(g, q, cp, s, t, work');
    WaitingWhileFull(g, q, cp, s, t, work');
  }

  lemma AdvanceIdle(g: Nodes, q: nat, cp: nat, s: Sim, t: nat)
    requires Linked(g) && Acyclic(g) && Suffixes(g) && Sched(g, s) && s.ready == {} && NoneEndsBefore(s, t)
    requires Bounded(g, q, cp, s) && |s.threads| == q + 1 && s.time <= t && SomeBusy(s.threads)
    ensures Bounded(g, q, cp, s.(time := t))
  {
    var work' := Work(g, s.(time := t));
    WorkAdvances(g, q + 1, s, t - s.time);
    TimesAdds(q + 1, s.time, t - s.time);
    RunningStillFits(g, q, cp, s, t, work');
    WaitingBehindRunning(g, q, cp, s, t, work');
  }

  lemma WaitingBehindRunning(g: Nodes, q: nat, cp: nat, s: Sim, t: nat, work': int)
    requires Linked(g) && Acyclic(g) && Suffixes(g) && Sched(g, s) && s.ready == {} && NoneEndsBefore(s, t)
    requires SomeBusy(s.threads)
    requires RunningFits(g, q, cp, s.(time := t), work')
    ensures WaitingFits(g, q, cp, s.(time := t), work') && Fits(q, t, t, work', cp)
  {
    var rank :| Ranked(g, rank);
    WaitingWhileIdle(g, rank, q, cp, s, t, work');
    var th :| 0 <= th < |s.threads| && s.threads[th].Busy?;
    RunningBoundsTime(g, q, cp, s, t, work', th);
  }

  // ---------------------------------------------------------------- the makespan

  /** In a legal schedule a child starts after its parent has ended. */
  lemma StartsAfterParent(g: Nodes, order: seq<Entry>, a: nat, b: nat)
    requires Ordered(g, order) && a < |order| && b < |order| && order[b].tx < |g|
      && order[a].tx in g[order[b].tx].parents
    ensures order[a].end <= order[b].start && a < b
  {
    assert EndedBefore(order, b, order[a].tx, order[b].start);
  }

  /** In a legal schedule the gas of every path fits between the start of its first node and the end. */
  lemma {:induction false} SuffixFits(g: Nodes, rank: seq<nat>, k: nat, order: seq<Entry>, end: nat, a: nat)
    requires Linked(g) && Ranked(g, rank) && Suffixes(g) && LegalSchedule(g, k, order) && a < |order|
    requires forall e :: e in order ==> e.end <= end
    ensures order[a].start + g[order[a].tx].suffix <= end
    decreases |g| - rank[order[a].tx]
  {
    var i := order[a].tx;
    assert SuffixAt(g, i);
    assert order[a] in order;
    if g[i].suffix != g[i].gas {
      var c :| c in g[i].children && c < |g| && g[i].suffix == g[i].gas + g[c].suffix;
      assert IsLogged(order, c);
      var b :| 0 <= b < |order| && order[b].tx == c;
      assert i in g[c].parents;
      StartsAfterParent(g, order, a, b);
      SuffixFits(g, rank, k, order, end, b);
    }
  }

  /** Everything that is promised about a finished simulation. */
  ghost predicate Makespan(g: Nodes, k: nat, order: seq<Entry>, end: nat) {
    && LegalSchedule(g, k, order)
    && (forall e :: e in order ==> e.end <= end)
    && end <= TotalGas(g) <= k * end
    && forall cp: nat :: IsCriticalPath(g, cp) ==> cp <= end && k * end <= TotalGas(g) + (k - 1) * cp
  }

  lemma LargestSuffixFits(g: Nodes, k: nat, cp: nat, order: seq<Entry>, end: nat)
    requires Linked(g) && Acyclic(g) && Suffixes(g) && IsLargestSuffix(g, cp) && LegalSchedule(g, k, order)
    requires forall e :: e in order ==> e.end <= end
    ensures cp <= end
  {
    if g != [] {
      var rank :| Ranked(g, rank);
      var i :| 0 <= i < |g| && g[i].suffix == cp;
      assert IsLogged(order, i);
      var a :| 0 <= a < |order| && order[a].tx == i;
      SuffixFits(g, rank, k, order, end, a);
    }
  }

  /** All work done and nothing running: the invariant becomes the bound. */
  lemma FinishedWork(g: Nodes, q: nat, cp: nat, s: Sim)
    requires Bounded(g, q, cp, s)
    requires (forall th :: 0 <= th < |s.threads| ==> s.threads[th].Idle?) && forall i: nat :: i < |g| ==> i in s.done
    ensures s.time <= TotalGas(g) <= (q + 1) * s.time && (q + 1) * s.time <= TotalGas(g) + q * cp
  {
    BusyCountBounds(s.threads);
    GasOfBounded(g, s.done, |g|);
    TimesIsProduct(q, cp);
    TimesIsProduct(q + 1, s.time);
  }

  lemma FinishedIsBounded(g: Nodes, q: nat, cp: nat, s: Sim)
    requires Linked(g) && Acyclic(g) && Suffixes(g) && IsLargestSuffix(g, cp) && Sched(g, s) && Bounded(g, q, cp, s)
    requires |s.threads| == q + 1
    requires s.ready == {} && forall th :: 0 <= th < |s.threads| ==> s.threads[th].Idle?
    ensures Makespan(g, q + 1, s.order, s.time)
  {
    FinishedIsLegal(g, s);
    FinishedWork(g, q, cp, s);
    LargestSuffixFits(g, q + 1, cp, s.order, s.time);
    forall cp': nat | IsCriticalPath(g, cp')
      ensures cp' <= s.time && (q + 1) * s.time <= TotalGas(g) + (q + 1 - 1) * cp'
    {
      LargestSuffixIsCritical(g, cp);
      CriticalPathIsUnique(g, cp, cp');
    }
  }
}
