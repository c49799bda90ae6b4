/** Who is responsible for a transaction. An executing transaction has exactly one
    executor; an aborting one is held by the validator that aborted it, waits in the
    dependents list of one lower unfinished transaction, or is being resumed by the
    worker that finished that transaction. */
module Ownership {
  import opened Collections
  import opened MemoryModel
  import opened TransactionProgram
  import opened Protocol

  ghost predicate Sizes(b: Block, s: State) {
    var n := |b.txs|;
    |s.sh.status| == |s.sh.dependents| == |s.sh.lastReads| == |s.sh.lastWrites| == |s.sh.results| == |b.estimates| == n
  }

  predicate Executes(w: Worker, i: nat) {
    w.Exec? && w.tx == i
  }

  /** The validator that aborted `i` and has not made it ready again. */
  predicate Converts(w: Worker, i: nat) {
    w.Valid? && w.tx == i && (w.val.ToEstimates? || w.val.Estimating? || w.val.MakeReady?)
  }

  /** The dependents a finishing worker has drained and not resumed yet. */
  predicate Carries(w: Worker, d: nat) {
    w.Exec? && (w.exec.Resume? || w.exec.LowerExecution?) && d in w.exec.rest
  }

  predicate Owns(w: Worker, i: nat) {
    Executes(w, i) || Converts(w, i) || Carries(w, i)
  }

  predicate Waits(sh: Shared, j: nat, d: nat) {
    j < |sh.dependents| && d in sh.dependents[j]
  }

  ghost predicate ExecFits(sh: Shared, i: nat, inc: nat, e: ExecPhase) {
    && i < |sh.status| == |sh.dependents|
    && sh.status[i] == TxStatus(inc, Executing)
    && (e.Blocked? ==> e.on < i)
    && (e.LowerExecution? ==> i < e.d < |sh.status| && e.d !in e.rest)
    && (e.Resume? || e.LowerExecution? ==>
          Distinct(e.rest) && forall d: nat :: d in e.rest ==> i < d < |sh.status| && sh.status[d].status.Aborting?)
    && (HoldsStatus(Exec(i, inc, e), i) ==> sh.dependents[i] == [])
  }

  /** The status of a transaction agrees with what the worker is doing to it. */
  ghost predicate Fits(sh: Shared, w: Worker) {
    match w
    case Seek(k) => (k.PeekValidation? ==> k.t < |sh.status|) && (k.PeekExecution? ==> k.t < |sh.status|)
    case Exec(i, inc, e) => ExecFits(sh, i, inc, e)
    case Valid(i, _) => i < |sh.status| && (Converts(w, i) ==> sh.status[i].status.Aborting?)
    case _ => true
  }

  ghost predicate DependentsFit(sh: Shared) {
    && |sh.dependents| == |sh.status|
    && (forall j: nat, d: nat :: Waits(sh, j, d) ==>
          j < d < |sh.status| && sh.status[d].status.Aborting? && !Finished(sh.status[j]))
    && (forall j :: 0 <= j < |sh.dependents| ==> Distinct(sh.dependents[j]))
    && (forall j: nat, j': nat, d: nat :: Waits(sh, j, d) && Waits(sh, j', d) ==> j == j')
  }

  ghost predicate OneOwner(s: State) {
    && (forall u, v, i: nat :: 0 <= u < |s.ws| && 0 <= v < |s.ws| && Owns(s.ws[u], i) && Owns(s.ws[v], i) ==> u == v)
    && (forall u, j: nat, i: nat :: 0 <= u < |s.ws| && Owns(s.ws[u], i) ==> !Waits(s.sh, j, i))
  }

  ghost predicate Executor(s: State, i: nat) {
    exists u :: 0 <= u < |s.ws| && Executes(s.ws[u], i)
  }

  ghost predicate Holder(s: State, i: nat) {
    (exists u :: 0 <= u < |s.ws| && Owns(s.ws[u], i)) || (exists j: nat :: Waits(s.sh, j, i))
  }

  ghost predicate SomeOwner(s: State) {
    forall i :: 0 <= i < |s.sh.status| ==>
      && (s.sh.status[i].status.Executing? ==> Executor(s, i))
      && (s.sh.status[i].status.Aborting? ==> Holder(s, i))
  }

  ghost predicate Owned(s: State) {
    && (forall u :: 0 <= u < |s.ws| ==> Fits(s.sh, s.ws[u]))
    && DependentsFit(s.sh)
    && OneOwner(s)
    && SomeOwner(s)
  }

  // ---------------------------------------------------------------- effects of a step on ownership

  /** Only worker `w` moved, and only transaction `c` may have changed its status. */
  ghost predicate OnlyMoved(s: State, s': State, w: nat, c: nat) {
    && w < |s.ws| == |s'.ws|
    && s'.ws == s.ws[w := s'.ws[w]]
    && |s'.sh.status| == |s.sh.status| && |s'.sh.dependents| == |s.sh.dependents|
    && (forall i :: 0 <= i < |s.sh.status| && i != c ==> s'.sh.status[i] == s.sh.status[i])
  }

  ghost predicate Elsewhere(s: State, w: nat, i: nat) {
    exists u :: 0 <= u < |s.ws| && u != w && Owns(s.ws[u], i)
  }

  /** What the moving worker has to establish for ownership to be kept. */
  lemma OwnershipKept(s: State, s': State, w: nat, c: nat)
    requires Owned(s) && OnlyMoved(s, s', w, c) && !Elsewhere(s, w, c)
    requires Fits(s'.sh, s'.ws[w]) && DependentsFit(s'.sh)
    requires forall i: nat :: Owns(s'.ws[w], i) ==> !Elsewhere(s, w, i) && forall j: nat :: !Waits(s'.sh, j, i)
    requires forall j: nat, i: nat :: Waits(s'.sh, j, i) ==> Waits(s.sh, j, i) || !Elsewhere(s, w, i)
    requires forall j :: 0 <= j < |s.sh.dependents| && s.sh.dependents[j] == [] && s'.sh.dependents[j] != [] ==>
      StatusFree(s, j)
    requires forall i :: 0 <= i < |s.sh.status| && s'.sh.status[i].status.Executing? ==>
      Executes(s'.ws[w], i) || (s.sh.status[i].status.Executing? && !Executes(s.ws[w], i))
    requires forall i :: 0 <= i < |s.sh.status| && s'.sh.status[i].status.Aborting? ==>
      || Owns(s'.ws[w], i) || (exists j: nat :: Waits(s'.sh, j, i))
      || (s.sh.status[i].status.Aborting? && !Owns(s.ws[w], i) && forall j: nat :: Waits(s.sh, j, i) ==>
         Waits(s'.sh, j, i))
    ensures Owned(s')
  {
    forall u | 0 <= u < |s'.ws| ensures Fits(s'.sh, s'.ws[u]) {
      if u != w {
        OthersFit(s, s', w, c, u);
      }
    }
    assert OneOwner(s');
    forall i | 0 <= i < |s'.sh.status|
      ensures s'.sh.status[i].status.Executing? ==> Executor(s', i)
      ensures s'.sh.status[i].status.Aborting? ==> Holder(s', i)
    {
      if s'.sh.status[i].status.Executing? && !Executes(s'.ws[w], i) {
        var u :| 0 <= u < |s.ws| && Executes(s.ws[u], i);
        assert Executes(s'.ws[u], i);
      }
      if s'.sh.status[i].status.Aborting? && !Owns(s'.ws[w], i) && !(exists j: nat :: Waits(s'.sh, j, i)) {
        assert Holder(s, i);
        var u :| 0 <= u < |s.ws| && Owns(s.ws[u], i);
        assert Owns(s'.ws[u], i);
      }
    }
  }

  lemma OthersFit(s: State, s': State, w: nat, c: nat, u: nat)
    requires Owned(s) && OnlyMoved(s, s', w, c) && !Elsewhere(s, w, c) && u < |s.ws| && u != w
    requires forall j :: 0 <= j < |s.sh.dependents| && s.sh.dependents[j] == [] && s'.sh.dependents[j] != [] ==>
      StatusFree(s, j)
    ensures Fits(s'.sh, s.ws[u])
  {
    assert Fits(s.sh, s.ws[u]) && !Owns(s.ws[u], c);
    if s.ws[u].Exec? {
      var e := s.ws[u].exec;
      if e.Resume? || e.LowerExecution? {
        forall d: nat | d in e.rest ensures d < |s'.sh.status| && s'.sh.status[d].status.Aborting? {
          assert Carries(s.ws[u], d);
        }
      }
    }
  }

  // ---------------------------------------------------------------- every step keeps ownership

  /** Worker `w` moves on with the same transactions in hand. */
  lemma StillOwned(s: State, s': State, w: nat)
    requires Owned(s) && w < |s.ws| == |s'.ws| && s'.ws == s.ws[w := s'.ws[w]]
    requires s'.sh.status == s.sh.status && s'.sh.dependents == s.sh.dependents
    requires forall i: nat :: Owns(s.ws[w], i) == Owns(s'.ws[w], i) && Executes(s.ws[w], i) == Executes(s'.ws[w], i)
    requires Fits(s'.sh, s'.ws[w])
    ensures Owned(s')
  {
    assert forall j: nat, i: nat :: Waits(s.sh, j, i) == Waits(s'.sh, j, i);
    forall i: nat | Owns(s'.ws[w], i) ensures !Elsewhere(s, w, i) && forall j: nat :: !Waits(s'.sh, j, i) {
      assert Owns(s.ws[w], i);
    }
    forall i | 0 <= i < |s.sh.status| && s'.sh.status[i].status.Aborting?
      ensures Owns(s'.ws[w], i) || (s.sh.status[i].status.Aborting? && !Owns(s.ws[w], i) && forall j: nat ::
        Waits(s.sh, j, i) ==> Waits(s'.sh, j, i))
    {
      assert forall j: nat :: Waits(s.sh, j, i) == Waits(s'.sh, j, i);
    }
    OwnershipKept(s, s', w, |s.sh.status|);
  }

  /** A ready transaction is taken for execution. */
  lemma Taken(s: State, s': State, w: nat, i: nat)
    requires Owned(s) && w < |s.ws| == |s'.ws| && s'.ws == s.ws[w := s'.ws[w]]
    requires i < |s.sh.status| && s.sh.status[i].status.ReadyToExecute?
    requires s'.sh == SetStatus(s.sh, i, Executing) && s'.ws[w] == StartRun(s.sh, i)
    requires forall j: nat :: !Owns(s.ws[w], j)
    ensures Owned(s')
  {
    Unowned(s, i);
    forall j: nat ensures !Executes(s.ws[w], j) { assert !Owns(s.ws[w], j); }
    assert forall j: nat, k: nat :: Waits(s.sh, j, k) == Waits(s'.sh, j, k);
    OwnershipKept(s, s', w, i);
  }

  /** Nobody is responsible for a transaction that is ready or finished. */
  lemma Unowned(s: State, i: nat)
    requires Owned(s) && i < |s.sh.status| && !s.sh.status[i].status.Executing? && !s.sh.status[i].status.Aborting?
    ensures forall u :: 0 <= u < |s.ws| ==> !Owns(s.ws[u], i)
    ensures forall j: nat :: !Waits(s.sh, j, i)
  {
    forall u | 0 <= u < |s.ws| ensures !Owns(s.ws[u], i) {
      assert Fits(s.sh, s.ws[u]);
    }
  }

  /** `add_dependency` succeeds. */
  lemma Suspended(s: State, s': State, w: nat, i: nat, j: nat)
    requires Owned(s) && w < |s.ws| == |s'.ws| && s'.ws == s.ws[w := s'.ws[w]]
    requires i < |s.sh.status| == |s.sh.dependents| && j < i && !Finished(s.sh.status[j]) && StatusFree(s, j)
    requires s.ws[w].Exec? && s.ws[w].tx == i && s.ws[w].exec.Blocked?
    requires s'.sh == SetStatus(s.sh, i, Aborting).(dependents := s.sh.dependents[j := s.sh.dependents[j] + [i]])
    requires s'.ws[w] == Seek(Begin)
    ensures Owned(s')
  {
    assert Fits(s.sh, s.ws[w]) && Owns(s.ws[w], i);
    assert forall k: nat, d: nat :: Waits(s'.sh, k, d) <==> Waits(s.sh, k, d) || (k == j && d == i);
    assert Waits(s'.sh, j, i);
    OwnershipKept(s, s', w, i);
  }

  /** `finish_execution` takes the status lock and drains the dependents. */
  lemma Drained(s: State, s': State, w: nat, i: nat)
    requires Owned(s) && w < |s.ws| == |s'.ws| && s'.ws == s.ws[w := s'.ws[w]]
    requires i < |s.sh.dependents| && s.ws[w].Exec? && s.ws[w].tx == i && s.ws[w].exec.Lock?
    requires s'.sh == s.sh.(dependents := s.sh.dependents[i := []])
    requires s'.ws[w] == s.ws[w].(exec := Resume(s.sh.dependents[i], s.ws[w].exec.wroteNew))
    ensures Owned(s')
  {
    assert Fits(s.sh, s.ws[w]) && Owns(s.ws[w], i);
    assert forall k: nat, d: nat :: Waits(s'.sh, k, d) <==> Waits(s.sh, k, d) && k != i;
    forall d: nat | d in s.sh.dependents[i] ensures Waits(s.sh, i, d) {}
    forall d: nat | Owns(s'.ws[w], d) ensures !Elsewhere(s, w, d) && forall k: nat :: !Waits(s'.sh, k, d) {
      if d != i {
        assert Waits(s.sh, i, d);
      }
    }
    forall d | 0 <= d < |s.sh.status| && s'.sh.status[d].status.Aborting?
      ensures Owns(s'.ws[w], d) || (!Owns(s.ws[w], d) && forall k: nat :: Waits(s.sh, k, d) ==> Waits(s'.sh, k, d))
    {
      if Waits(s.sh, i, d) {
        assert Carries(s'.ws[w], d);
      }
    }
    OwnershipKept(s, s', w, |s.sh.status|);
  }

  /** A drained dependent becomes ready. */
  lemma Resumed(s: State, s': State, w: nat, i: nat, d: nat)
    requires Owned(s) && w < |s.ws| == |s'.ws| && s'.ws == s.ws[w := s'.ws[w]]
    requires s.ws[w].Exec? && s.ws[w].tx == i && s.ws[w].exec.Resume? && s.ws[w].exec.rest != []
      && s.ws[w].exec.rest[0] == d
    requires d < |s.sh.status| && s'.sh == SetReady(s.sh, d)
    requires s'.ws[w] == s.ws[w].(exec := LowerExecution(d, s.ws[w].exec.rest[1..], s.ws[w].exec.wroteNew))
    ensures Owned(s')
  {
    var rest := s.ws[w].exec.rest;
    assert Fits(s.sh, s.ws[w]) && Owns(s.ws[w], d) && Owns(s.ws[w], i);
    forall x | 0 <= x < |rest[1..]| ensures rest[1..][x] == rest[x + 1] && rest[x + 1] != d {}
    forall e: nat | e in rest[1..] ensures e in rest && e != d {}
    assert forall k: nat, e: nat :: Waits(s'.sh, k, e) == Waits(s.sh, k, e);
    forall e: nat | Owns(s'.ws[w], e) ensures !Elsewhere(s, w, e) && forall k: nat :: !Waits(s'.sh, k, e) {
      assert Owns(s.ws[w], e);
    }
    OwnershipKept(s, s', w, d);
  }

  /** An owned transaction leaves its owner: it was executed, or made ready after an abort. */
  lemma Released(s: State, s': State, w: nat, i: nat, t: TxStatus)
    requires Owned(s) && w < |s.ws| == |s'.ws| && s'.ws == s.ws[w := s'.ws[w]]
    requires i < |s.sh.status| && (t.status.Executed? || t.status.ReadyToExecute?)
    requires s'.sh.status == s.sh.status[i := t] && s'.sh.dependents == s.sh.dependents
    requires Owns(s.ws[w], i) && forall j: nat :: j != i ==> !Owns(s.ws[w], j)
    requires forall j: nat :: !Owns(s'.ws[w], j)
    requires Fits(s'.sh, s'.ws[w])
    requires t.status.Executed? ==> s.sh.dependents[i] == []
    ensures Owned(s')
  {
    forall j: nat | j != i ensures !Executes(s.ws[w], j) { assert !Owns(s.ws[w], j); }
    assert forall k: nat, e: nat :: Waits(s'.sh, k, e) == Waits(s.sh, k, e);
    OwnershipKept(s, s', w, i);
  }

  /** A finished transaction is confirmed by a validator, or taken over by the one that refutes it. */
  lemma Judged(s: State, s': State, w: nat, i: nat, st: Status)
    requires Owned(s) && w < |s.ws| == |s'.ws| && s'.ws == s.ws[w := s'.ws[w]]
    requires i < |s.sh.status| && Finished(s.sh.status[i])
    requires s'.sh.status == s.sh.status[i := s.sh.status[i].(status := st)] && s'.sh.dependents == s.sh.dependents
    requires forall j: nat :: !Owns(s.ws[w], j)
    requires (st.Validated? && s'.ws[w] == Seek(Begin)) || (st.Aborting? && s'.ws[w] == Valid(i, ToEstimates))
    ensures Owned(s')
  {
    Unowned(s, i);
    forall j: nat ensures !Executes(s.ws[w], j) { assert !Owns(s.ws[w], j); }
    assert forall k: nat, e: nat :: Waits(s'.sh, k, e) == Waits(s.sh, k, e);
    OwnershipKept(s, s', w, i);
  }

  lemma SeekOwned(b: Block, s: State, w: nat, s': State)
    requires Sizes(b, s) && Owned(s) && StepBy(b, s, w, s') && !s.sh.aborted && s.ws[w].Seek?
    ensures Sizes(b, s') && Owned(s')
  {
    var k := s.ws[w].seek;
    if k.PeekValidation? && s.sh.status[k.t].status.ReadyToExecute? {
      Taken(s, s', w, k.t);
    } else if k.PeekExecution? && s.sh.status[k.t].status.ReadyToExecute? {
      Taken(s, s', w, k.t);
    } else {
      StillOwned(s, s', w);
    }
  }

  lemma ExecOwned(b: Block, s: State, w: nat, s': State)
    requires Sizes(b, s) && Owned(s) && StepBy(b, s, w, s') && !s.sh.aborted && s.ws[w].Exec? && !s'.ws[w].Raise?
    ensures Sizes(b, s') && Owned(s')
  {
    match s.ws[w].exec
    case Run(_, _) => RunOwned(b, s, w, s');
    case Record(_, _, _, _) => RecordOwned(b, s, w, s');
    case Blocked(_) => HandoverOwned(b, s, w, s');
    case Lock(_) => HandoverOwned(b, s, w, s');
    case Resume(_, _) => HandoverOwned(b, s, w, s');
    case Mark(_) => HandoverOwned(b, s, w, s');
    case _ => CountersOwned(b, s, w, s');
  }

  lemma HandoverOwned(b: Block, s: State, w: nat, s': State)
    requires Sizes(b, s) && Owned(s) && StepBy(b, s, w, s') && !s.sh.aborted && s.ws[w].Exec?
    requires s.ws[w].exec.Blocked? || s.ws[w].exec.Lock? || s.ws[w].exec.Resume? || s.ws[w].exec.Mark?
    ensures Sizes(b, s') && Owned(s')
  {
    var i := s.ws[w].tx;
    assert Fits(s.sh, s.ws[w]);
    match s.ws[w].exec
    case Blocked(j) =>
      if Finished(s.sh.status[j]) {
        StillOwned(s, s', w);
      } else {
        Suspended(s, s', w, i, j);
      }
    case Lock(_) => Drained(s, s', w, i);
    case Resume(rest, _) =>
      if rest == [] {
        StillOwned(s, s', w);
      } else {
        Resumed(s, s', w, i, rest[0]);
      }
    case Mark(_) => Released(s, s', w, i, s.sh.status[i].(status := Executed));
  }

  lemma CountersOwned(b: Block, s: State, w: nat, s': State)
    requires Sizes(b, s) && Owned(s) && StepBy(b, s, w, s') && !s.sh.aborted && s.ws[w].Exec?
    requires s.ws[w].exec.Save? || s.ws[w].exec.LowerExecution? || s.ws[w].exec.LowerMinValidation?
             || s.ws[w].exec.CompareValidation? || s.ws[w].exec.LowerValidation?
    ensures Sizes(b, s') && Owned(s')
  {
    assert Fits(s.sh, s.ws[w]);
    StillOwned(s, s', w);
  }

  lemma RecordOwned(b: Block, s: State, w: nat, s': State)
    requires Sizes(b, s) && Owned(s) && StepBy(b, s, w, s') && !s.sh.aborted && s.ws[w].Exec? && s.ws[w].exec.Record?
    ensures Sizes(b, s') && Owned(s')
  {
    assert Fits(s.sh, s.ws[w]);
    StillOwned(s, s', w);
  }

  lemma RunOwned(b: Block, s: State, w: nat, s': State)
    requires Sizes(b, s) && Owned(s) && StepBy(b, s, w, s') && !s.sh.aborted
    requires s.ws[w].Exec? && s.ws[w].exec.Run? && !s'.ws[w].Raise?
    ensures Sizes(b, s') && Owned(s')
  {
    RunFits(b, s, w, s');
    StillOwned(s, s', w);
  }

  /** A blocked read names a lower transaction. */
  lemma {:induction false} WalkBelow(m: Versions, i: nat, prev: seq<ReadOrigin>)
    ensures Walk(m, i).BlockedBy? ==> Walk(m, i).tx < i
    ensures Reread(m, i, prev).Blocking? ==> Reread(m, i, prev).tx < i
    decreases i
  {
    if i != 0 {
      WalkBelow(m, i - 1, prev);
      if prev != [] {
        WalkBelow(m, i - 1, prev[1..]);
      }
    }
  }

  lemma RunFits(b: Block, s: State, w: nat, s': State)
    requires Sizes(b, s) && Owned(s) && StepBy(b, s, w, s') && !s.sh.aborted
    requires s.ws[w].Exec? && s.ws[w].exec.Run? && !s'.ws[w].Raise?
    ensures Fits(s'.sh, s'.ws[w]) && Executes(s'.ws[w], s.ws[w].tx)
    ensures forall j: nat :: !Carries(s'.ws[w], j)
    ensures s'.sh.status == s.sh.status && s'.sh.dependents == s.sh.dependents && Sizes(b, s')
  {
    assert Fits(s.sh, s.ws[w]);
    var i, rs := s.ws[w].tx, s.ws[w].exec.readSet;
    var a := Next(b.txs[i], s.ws[w].exec.values);
    if a.Read? {
      var m := At(s.sh.data, a.loc);
      WalkBelow(m, i, if a.loc in rs then rs[a.loc] else []);
    }
  }

  lemma ValOwned(b: Block, s: State, w: nat, s': State)
    requires Sizes(b, s) && Owned(s) && StepBy(b, s, w, s') && !s.sh.aborted && s.ws[w].Valid?
    ensures Sizes(b, s') && Owned(s')
  {
    var i, v := s.ws[w].tx, s.ws[w].val;
    assert Fits(s.sh, s.ws[w]);
    match v
    case Refute =>
      if Finished(s.sh.status[i]) {
        Judged(s, s', w, i, Aborting);
      } else {
        StillOwned(s, s', w);
      }
    case Confirm =>
      if s.sh.status[i].status.Executed? {
        Judged(s, s', w, i, Validated);
      } else {
        StillOwned(s, s', w);
      }
    case MakeReady => Released(s, s', w, i, TxStatus(s.sh.status[i].incarnation + 1, ReadyToExecute));
    case Retry =>
      if s.sh.status[i].status.ReadyToExecute? {
        Taken(s, s', w, i);
      } else {
        StillOwned(s, s', w);
      }
    case _ => StillOwned(s, s', w);
  }

  /** No step of any worker breaks ownership, as long as the run is not aborted. */
  lemma StepOwned(b: Block, s: State, w: nat, s': State)
    requires Sizes(b, s) && Owned(s) && StepBy(b, s, w, s') && !s'.sh.aborted && !s'.ws[w].Raise?
    ensures Sizes(b, s') && Owned(s')
  {
    match s.ws[w]
    case Seek(_) => SeekOwned(b, s, w, s');
    case Exec(_, _, _) => ExecOwned(b, s, w, s');
    case Valid(_, _) => ValOwned(b, s, w, s');
    case _ =>
  }
}
