/** List scheduling on `k` simulated threads: what the simulator's state means, the
    effect of its three moves, and the bounds every reachable state keeps. */
module ListSchedule {
  import opened Collections
  import opened GraphModel

  datatype Thread = Idle | Busy(tx: nat, start: nat, end: nat)

  datatype Entry = Entry(thread: nat, tx: nat, start: nat, end: nat)

  /** The simulator's variables, and the sets of started and completed transactions. */
  datatype Sim = Sim(
    time: nat,
    remaining: seq<nat>,
    ready: set<nat>,
    threads: seq<Thread>,
    order: seq<Entry>,
    started: set<nat>,
    done: set<nat>)

  /** How many of the listed parents are not completed. */
  ghost function Undone(parents: seq<nat>, done: set<nat>): nat {
    if parents == [] then 0 else (if parents[0] in done then 0 else 1) + Undone(parents[1..], done)
  }

  lemma {:induction false} UndoneZero(parents: seq<nat>, done: set<nat>)
    ensures Undone(parents, done) == 0 <==> forall p :: p in parents ==> p in done
  {
    if parents != [] {
      UndoneZero(parents[1..], done);
      assert parents == [parents[0]] + parents[1..];
    }
  }

  lemma {:induction false} UndoneAll(parents: seq<nat>)
    ensures Undone(parents, {}) == |parents|
  {
    if parents != [] {
      UndoneAll(parents[1..]);
    }
  }

  lemma {:induction false} UndoneDrops(parents: seq<nat>, done: set<nat>, j: nat)
    requires Distinct(parents) && j !in done
    ensures Undone(parents, done + {j}) == Undone(parents, done) - if j in parents then 1 else 0
  {
    if parents != [] {
      UndoneDrops(parents[1..], done, j);
      assert parents == [parents[0]] + parents[1..];
      assert parents[0] !in parents[1..];
    }
  }

  // ---------------------------------------------------------------- legality

  ghost predicate AllDone(parents: seq<nat>, done: set<nat>) {
    forall p :: p in parents ==> p in done
  }

  /** A node is in the heap or started exactly when all its parents have completed. */
  ghost predicate Tracked(g: Nodes, s: Sim) {
    && |s.remaining| == |g|
    && s.done <= s.started && s.ready !! s.started
    && (forall i :: i in s.ready || i in s.started ==> i < |g|)
    && (forall i: nat :: i < |g| ==> (i in s.ready || i in s.started <==> AllDone(g[i].parents, s.done)))
    && forall i: nat :: i < |g| ==> s.remaining[i] == Undone(g[i].parents, s.done)
  }

  /** A log entry is completed, or is what its thread is running. */
  ghost predicate EntryOk(g: Nodes, s: Sim, e: Entry) {
    && e.tx in s.started && e.tx < |g| && e.thread < |s.threads| && e.end == e.start + g[e.tx].gas
    && if e.tx in s.done then e.end <= s.time
       else s.threads[e.thread] == Busy(e.tx, e.start, e.end) && e.start <= s.time <= e.end
  }

  ghost predicate Running(s: Sim, th: nat)
    requires th < |s.threads|
  {
    s.threads[th].Busy? ==>
      var t := s.threads[th];
      t.tx !in s.done && Entry(th, t.tx, t.start, t.end) in s.order
  }

  /** An entry of `order[..b]` for node `p` that ended by time `t`. */
  ghost predicate EndedBefore(order: seq<Entry>, b: nat, p: nat, t: nat)
    requires b <= |order|
  {
    exists a :: 0 <= a < b && order[a].tx == p && order[a].end <= t
  }

  ghost predicate IsLogged(order: seq<Entry>, i: nat) {
    exists a :: 0 <= a < |order| && order[a].tx == i
  }

  ghost predicate Ordered(g: Nodes, order: seq<Entry>) {
    && (forall a, b :: 0 <= a < b < |order| ==> order[a].tx != order[b].tx)
    && (forall a, b :: 0 <= a < b < |order| && order[a].thread == order[b].thread ==> order[a].end <= order[b].start)
    && (forall b, p :: 0 <= b < |order| && order[b].tx < |g| && p in g[order[b].tx].parents ==>
       EndedBefore(order, b, p, order[b].start))
  }

  ghost predicate Logged(g: Nodes, s: Sim) {
    && (forall e :: e in s.order ==> EntryOk(g, s, e))
    && (forall i :: i in s.started ==> IsLogged(s.order, i))
    && (forall th: nat :: th < |s.threads| ==> Running(s, th))
  }

  ghost predicate Sched(g: Nodes, s: Sim) {
    Tracked(g, s) && Logged(g, s) && Ordered(g, s.order)
  }

  /** The result of a simulation: a permutation of the nodes, each with its own gas as duration, parents first,
      and no overlap on a thread. */
  ghost predicate LegalSchedule(g: Nodes, k: nat, order: seq<Entry>) {
    && |order| == |g|
    && (forall e :: e in order ==> e.thread < k && e.tx < |g| && e.end == e.start + g[e.tx].gas)
    && (forall i: nat :: i < |g| ==> IsLogged(order, i))
    && Ordered(g, order)
  }

  // ---------------------------------------------------------------- the moves

  function Assign(g: Nodes, s: Sim, th: nat, i: nat): Sim
    requires th < |s.threads| && i < |g|
  {
    var end := s.time + g[i].gas;
    s.(ready := s.ready - {i}, threads := s.threads[th := Busy(i, s.time, end)],
       order := s.order + [Entry(th, i, s.time, end)], started := s.started + {i})
  }

  lemma AssignTracked(g: Nodes, s: Sim, th: nat, i: nat)
    requires Tracked(g, s) && th < |s.threads| && i in s.ready && i < |g|
    ensures Tracked(g, Assign(g, s, th, i))
  {
  }

  lemma AssignLogged(g: Nodes, s: Sim, th: nat, i: nat)
    requires Tracked(g, s) && Logged(g, s) && th < |s.threads| && s.threads[th].Idle? && i in s.ready && i < |g|
    ensures Logged(g, Assign(g, s, th, i))
  {
    var s' := Assign(g, s, th, i);
    var e := Entry(th, i, s.time, s.time + g[i].gas);
    assert s'.order[|s.order|] == e;
    forall x | x in s'.started ensures IsLogged(s'.order, x) {
      if x != i {
        assert IsLogged(s.order, x);
        var a :| 0 <= a < |s.order| && s.order[a].tx == x;
        assert s'.order[a] == s.order[a];
      }
    }
    forall u: nat | u < |s'.threads| ensures Running(s', u) {
      assert Running(s, u);
    }
  }

  lemma AssignOrdered(g: Nodes, s: Sim, th: nat, i: nat)
    requires Sched(g, s) && th < |s.threads| && s.threads[th].Idle? && i in s.ready && i < |g|
    ensures Ordered(g, Assign(g, s, th, i).order)
  {
    var order' := Assign(g, s, th, i).order;
    forall a | 0 <= a < |s.order| ensures s.order[a].tx != i && (s.order[a].thread == th ==> s.order[a].end <= s.time) {
      assert EntryOk(g, s, s.order[a]);
    }
    forall b, p | 0 <= b < |order'| && order'[b].tx < |g| && p in g[order'[b].tx].parents
      ensures EndedBefore(order', b, p, order'[b].start)
    {
      if b < |s.order| {
        assert order'[b] == s.order[b];
        var a :| 0 <= a < b && s.order[a].tx == p && s.order[a].end <= s.order[b].start;
        assert order'[a] == s.order[a];
      } else {
        assert AllDone(g[i].parents, s.done) && p in s.done && IsLogged(s.order, p);
        var a :| 0 <= a < |s.order| && s.order[a].tx == p;
        assert EntryOk(g, s, s.order[a]) && order'[a] == s.order[a];
      }
    }
  }

  /** No running transaction ends before `t`. */
  ghost predicate NoneEndsBefore(s: Sim, t: nat) {
    forall th :: 0 <= th < |s.threads| && s.threads[th].Busy? ==> t <= s.threads[th].end
  }

  lemma AdvanceSched(g: Nodes, s: Sim, t: nat)
    requires Sched(g, s) && s.time <= t && NoneEndsBefore(s, t)
    ensures Sched(g, s.(time := t))
  {
    var s' := s.(time := t);
    forall e | e in s'.order ensures EntryOk(g, s', e) {
      assert EntryOk(g, s, e);
    }
    forall u: nat | u < |s'.threads| ensures Running(s', u) {
      assert Running(s, u);
    }
  }

  /** The parent counts and the heap after `remove_transaction_and_update` of node `j`. */
  ghost predicate Released(g: Nodes, j: nat, remaining: seq<nat>, ready: set<nat>, remaining': seq<nat>,
                           ready': set<nat>)
    requires j < |g|
  {
    && |remaining'| == |remaining| == |g|
    && (forall c: nat :: c < |g| ==> remaining[c] == remaining'[c] + if c in g[j].children then 1 else 0)
    && (forall c :: c in ready' <==> c in ready || (c in g[j].children && c < |g| && remaining'[c] == 0))
  }

  function Complete(s: Sim, th: nat, remaining: seq<nat>, ready: set<nat>): Sim
    requires th < |s.threads| && s.threads[th].Busy?
  {
    s.(remaining := remaining, ready := ready, threads := s.threads[th := Idle], done := s.done + {s.threads[th].tx})
  }

  lemma CompleteTracked(g: Nodes, s: Sim, th: nat, remaining: seq<nat>, ready: set<nat>)
    requires Linked(g) && Tracked(g, s) && Logged(g, s) && th < |s.threads| && s.threads[th].Busy?
    requires s.threads[th].tx < |g| && Released(g, s.threads[th].tx, s.remaining, s.ready, remaining, ready)
    ensures Tracked(g, Complete(s, th, remaining, ready))
  {
    var j := s.threads[th].tx;
    var s' := Complete(s, th, remaining, ready);
    assert Running(s, th);
    assert EntryOk(g, s, Entry(th, j, s.threads[th].start, s.threads[th].end));
    forall i: nat | i < |g|
      ensures remaining[i] == Undone(g[i].parents, s'.done)
      ensures i in ready || i in s.started <==> AllDone(g[i].parents, s'.done)
      ensures i in ready ==> i !in s.started
    {
      UndoneDrops(g[i].parents, s.done, j);
      UndoneZero(g[i].parents, s'.done);
      UndoneZero(g[i].parents, s.done);
    }
  }

  /** Every child of a running transaction still counts it, so the decrement never underflows. */
  lemma CountsRunningParent(g: Nodes, s: Sim, j: nat, c: nat)
    requires Linked(g) && Tracked(g, s) && j < |g| && c in g[j].children && j !in s.done
    ensures c < |g| && s.remaining[c] > 0 && c !in s.ready && c !in s.started
  {
    UndoneZero(g[c].parents, s.done);
  }

  lemma CompleteLogged(g: Nodes, s: Sim, th: nat, remaining: seq<nat>, ready: set<nat>)
    requires Logged(g, s) && Ordered(g, s.order) && th < |s.threads| && s.threads[th].Busy?
      && s.threads[th].end == s.time
    ensures Logged(g, Complete(s, th, remaining, ready))
  {
    var s' := Complete(s, th, remaining, ready);
    assert Running(s, th);
    forall e | e in s'.order ensures EntryOk(g, s', e) {
      assert EntryOk(g, s, e);
    }
    forall u: nat | u < |s'.threads| ensures Running(s', u) {
      assert Running(s, u);
      if u != th && s.threads[u].Busy? {
        OneThreadEach(g, s, u, th);
      }
    }
  }

  lemma OneThreadEach(g: Nodes, s: Sim, u: nat, v: nat)
    requires Logged(g, s) && Ordered(g, s.order)
    requires u < |s.threads| && v < |s.threads| && u != v && s.threads[u].Busy? && s.threads[v].Busy?
    ensures s.threads[u].tx != s.threads[v].tx
  {
    assert Running(s, u) && Running(s, v);
    var x, y := s.threads[u], s.threads[v];
    var a :| 0 <= a < |s.order| && s.order[a] == Entry(u, x.tx, x.start, x.end);
    var b :| 0 <= b < |s.order| && s.order[b] == Entry(v, y.tx, y.start, y.end);
  }

  /** The time stands at the end of a transaction, or at the beginning. */
  ghost predicate AtSomeEnd(order: seq<Entry>, time: nat) {
    time == 0 || exists e :: e in order && e.end == time
  }

  lemma EndStays(order: seq<Entry>, order': seq<Entry>, time: nat)
    requires order <= order' && AtSomeEnd(order, time)
    ensures AtSomeEnd(order', time)
  {
  }

  // ---------------------------------------------------------------- priorities

  /** Node `p` ended before time `t`. */
  ghost predicate EndedEarlier(order: seq<Entry>, p: nat, t: nat) {
    exists e :: e in order && e.tx == p && e.end < t
  }

  /** All parents of `i` ended before time `t`, so `i` could have started then. */
  ghost predicate WasReady(g: Nodes, order: seq<Entry>, i: nat, t: nat) {
    i < |g| && forall p :: p in g[i].parents ==> EndedEarlier(order, p, t)
  }

  /** Whoever could have started when another one did, and did not, has no longer suffix. */
  ghost predicate Prioritised(g: Nodes, order: seq<Entry>) {
    forall a, b :: 0 <= a < b < |order| && order[a].tx < |g| && WasReady(g, order, order[b].tx, order[a].start) ==>
      g[order[b].tx].suffix <= g[order[a].tx].suffix
  }

  /** The same for those that have not started yet. */
  ghost predicate Favours(g: Nodes, order: seq<Entry>, started: set<nat>) {
    && Prioritised(g, order)
    && forall a, i: nat ::
         0 <= a < |order| && order[a].tx < |g| && i !in started && WasReady(g, order, i, order[a].start) ==>
           g[i].suffix <= g[order[a].tx].suffix
  }

  lemma FavoursNone(g: Nodes)
    ensures Favours(g, [], {}) && AtSomeEnd([], 0)
  {
  }

  lemma IsPrioritised(g: Nodes, order: seq<Entry>, started: set<nat>)
    requires Favours(g, order, started)
    ensures Prioritised(g, order)
  {
  }

  lemma WasReadyBefore(g: Nodes, order: seq<Entry>, e: Entry, i: nat, t: nat)
    requires WasReady(g, order + [e], i, t) && t <= e.end
    ensures WasReady(g, order, i, t)
  {
    forall p | p in g[i].parents ensures EndedEarlier(order, p, t) {
      assert EndedEarlier(order + [e], p, t);
    }
  }

  /** What was ready before now is on the heap, unless it has started. */
  lemma ReadyIsOnHeap(g: Nodes, s: Sim, i: nat)
    requires Sched(g, s) && i !in s.started && WasReady(g, s.order, i, s.time)
    ensures i in s.ready
  {
    forall p | p in g[i].parents ensures p in s.done {
      assert EndedEarlier(s.order, p, s.time);
      var e :| e in s.order && e.tx == p && e.end < s.time;
      assert EntryOk(g, s, e);
    }
    assert AllDone(g[i].parents, s.done);
  }

  /** Starting a ready node with the longest suffix keeps the priorities. */
  lemma AssignFavours(g: Nodes, s: Sim, th: nat, i: nat)
    requires Sched(g, s) && Favours(g, s.order, s.started) && th < |s.threads| && i in s.ready && i < |g|
    requires forall x :: x in s.ready ==> x < |g| && g[x].suffix <= g[i].suffix
    ensures var s' := Assign(g, s, th, i); Favours(g, s'.order, s'.started)
  {
    var s', e := Assign(g, s, th, i), Entry(th, i, s.time, s.time + g[i].gas);
    assert s'.order == s.order + [e];
    forall a, x: nat | 0 <= a < |s'.order| && s'.order[a].tx < |g| && x !in s.started
      && WasReady(g, s'.order, x, s'.order[a].start)
      ensures g[x].suffix <= g[s'.order[a].tx].suffix
    {
      if a < |s.order| {
        assert s'.order[a] == s.order[a] && EntryOk(g, s, s.order[a]);
      }
      WasReadyBefore(g, s.order, e, x, s'.order[a].start);
      if a == |s.order| {
        ReadyIsOnHeap(g, s, x);
      }
    }
    forall a, b | 0 <= a < b < |s'.order| && s'.order[a].tx < |g|
      && WasReady(g, s'.order, s'.order[b].tx, s'.order[a].start)
      ensures g[s'.order[b].tx].suffix <= g[s'.order[a].tx].suffix
    {
      if b < |s.order| {
        assert s'.order[a] == s.order[a] && s'.order[b] == s.order[b] && EntryOk(g, s, s.order[a]);
        WasReadyBefore(g, s.order, e, s.order[b].tx, s.order[a].start);
      }
    }
  }

  // ---------------------------------------------------------------- the end of a simulation

  /** When nothing runs and nothing is ready, everything has completed. */
  lemma {:induction false} Exhausted(g: Nodes, rank: seq<nat>, s: Sim, i: nat)
    requires Linked(g) && Ranked(g, rank) && Sched(g, s) && i < |g|
    requires s.ready == {} && forall th :: 0 <= th < |s.threads| ==> s.threads[th].Idle?
    ensures i in s.done
    decreases rank[i]
  {
    forall p | p in g[i].parents ensures p in s.done {
      ParentLink(g, p, i);
      Exhausted(g, rank, s, p);
    }
    assert AllDone(g[i].parents, s.done) && IsLogged(s.order, i);
    var a :| 0 <= a < |s.order| && s.order[a].tx == i;
    assert EntryOk(g, s, s.order[a]);
  }

  ghost function Below(n: nat): (b: set<nat>)
    ensures |b| == n && forall i: nat :: i in b <==> i < n
  {
    if n == 0 then {} else Below(n - 1) + {n - 1}
  }

  /** A log without repetitions is as long as the set of transactions in it. */
  lemma {:induction false} LogSize(order: seq<Entry>, s: set<nat>)
    requires forall a, b :: 0 <= a < b < |order| ==> order[a].tx != order[b].tx
    requires forall i :: i in s <==> IsLogged(order, i)
    ensures |order| == |s|
  {
    if order != [] {
      var last := order[|order| - 1].tx;
      var rest := order[..|order| - 1];
      assert IsLogged(order, last);
      forall i ensures i in s - {last} <==> IsLogged(rest, i) {
        if i in s - {last} {
          assert IsLogged(order, i);
          var a :| 0 <= a < |order| && order[a].tx == i;
          assert rest[a].tx == i;
        } else if a :| 0 <= a < |rest| && rest[a].tx == i {
          assert order[a].tx == i && IsLogged(order, i);
        }
      }
      LogSize(rest, s - {last});
    } else {
      forall i ensures i !in s {
        assert !IsLogged(order, i);
      }
      assert s == {};
    }
  }

  lemma AllLogged(g: Nodes, s: Sim)
    requires Logged(g, s) && Ordered(g, s.order) && forall i: nat :: i < |g| ==> i in s.started
    ensures |s.order| == |g|
  {
    forall i ensures i in Below(|g|) <==> IsLogged(s.order, i) {
      if a :| 0 <= a < |s.order| && s.order[a].tx == i {
        assert EntryOk(g, s, s.order[a]);
      }
    }
    LogSize(s.order, Below(|g|));
  }

  /** The log of a finished simulation is a legal schedule, and no entry ends after the final time. */
  lemma FinishedIsLegal(g: Nodes, s: Sim)
    requires Linked(g) && Acyclic(g) && Sched(g, s)
    requires s.ready == {} && forall th :: 0 <= th < |s.threads| ==> s.threads[th].Idle?
    ensures LegalSchedule(g, |s.threads|, s.order)
    ensures forall e :: e in s.order ==> e.end <= s.time
    ensures forall i: nat :: i < |g| ==> i in s.done
  {
    var rank :| Ranked(g, rank);
    forall i: nat | i < |g| ensures i in s.done && i in s.started && IsLogged(s.order, i) {
      Exhausted(g, rank, s, i);
    }
    AllLogged(g, s);
    forall e | e in s.order ensures e.end <= s.time && e.thread < |s.threads| && e.tx < |g|
      && e.end == e.start + g[e.tx].gas {
      assert EntryOk(g, s, e);
    }
  }
}
