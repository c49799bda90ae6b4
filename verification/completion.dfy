/** Counters, the exit of `next_task`, and the invariant of all runs. */
module Completion {
  import opened MemoryModel
  import opened TransactionProgram
  import opened Protocol
  import opened Ownership
  import opened VersionsInvariant
  import opened VersionsSteps
  import opened Obligations
  import opened ObligationsSteps

  // ---------------------------------------------------------------- counters

  function CountValidated(q: seq<TxStatus>): nat {
    if q == [] then 0 else CountValidated(q[..|q| - 1]) + (if q[|q| - 1].status.Validated? then 1 else 0)
  }

  lemma {:induction false} CountUpdated(q: seq<TxStatus>, i: nat, t: TxStatus)
    requires i < |q|
    ensures CountValidated(q[i := t]) + (if q[i].status.Validated? then 1 else 0) ==
      CountValidated(q) + (if t.status.Validated? then 1 else 0)
    decreases |q|
  {
    if i == |q| - 1 {
      assert q[i := t][..|q| - 1] == q[..|q| - 1];
    } else {
      CountUpdated(q[..|q| - 1], i, t);
      assert q[i := t][..|q| - 1] == q[..|q| - 1][i := t];
    }
  }

  lemma {:induction false} CountAll(q: seq<TxStatus>)
    ensures CountValidated(q) <= |q|
    ensures CountValidated(q) == |q| <==> forall i :: 0 <= i < |q| ==> q[i].status.Validated?
  {
    if q != [] {
      CountAll(q[..|q| - 1]);
    }
  }

  ghost predicate Counted(s: State) {
    && s.sh.numValidated == CountValidated(s.sh.status)
    && (forall i :: 0 <= i < |s.sh.status| && Finished(s.sh.status[i]) ==> s.sh.minValidationIdx <= i)
    && (forall u ::
          && 0 <= u < |s.ws| && s.ws[u].Exec?
          && (s.ws[u].exec.CompareValidation? || s.ws[u].exec.LowerValidation? || s.ws[u].exec.Mark?) ==>
            s.sh.minValidationIdx <= s.ws[u].tx)
  }

  lemma SeekCounted(b: Block, s: State, w: nat, s': State)
    requires Sizes(b, s) && Owned(s) && Counted(s) && StepBy(b, s, w, s') && !s.sh.aborted && s.ws[w].Seek?
    ensures Counted(s')
  {
    hide DependentsFit, ExecStep, ValStep;
    var k := s.ws[w].seek;
    if s'.sh.status != s.sh.status {
      CountUpdated(s.sh.status, k.t, s'.sh.status[k.t]);
    }
  }

  lemma ExecCounted(b: Block, s: State, w: nat, s': State)
    requires Sizes(b, s) && Owned(s) && Counted(s) && StepBy(b, s, w, s') && !s.sh.aborted && s.ws[w].Exec?
    ensures Counted(s')
  {
    var e := s.ws[w].exec;
    if e.Run? {
      RunCounted(b, s, w, s');
    } else if e.Record? {
      RecordCounted(b, s, w, s');
    } else if e.Blocked? || e.Resume? || e.Mark? {
      StatusCounted(b, s, w, s');
    } else {
      IndexCounted(b, s, w, s');
    }
  }

  lemma StatusCounted(b: Block, s: State, w: nat, s': State)
    requires Sizes(b, s) && Owned(s) && Counted(s) && StepBy(b, s, w, s') && !s.sh.aborted && s.ws[w].Exec?
    requires s.ws[w].exec.Blocked? || s.ws[w].exec.Resume? || s.ws[w].exec.Mark?
    ensures Counted(s')
  {
    hide SomeOwner, SeekStep;
    var e := s.ws[w].exec;
    assert Fits(s.sh, s.ws[w]);
    if s'.sh.status != s.sh.status {
      var c := if e.Resume? then e.rest[0] else s.ws[w].tx;
      CountUpdated(s.sh.status, c, s'.sh.status[c]);
    }
  }

  lemma IndexCounted(b: Block, s: State, w: nat, s': State)
    requires Sizes(b, s) && Counted(s) && StepBy(b, s, w, s') && !s.sh.aborted && s.ws[w].Exec?
    requires !s.ws[w].exec.Run? && !s.ws[w].exec.Record? && !s.ws[w].exec.Blocked? && !s.ws[w].exec.Resume?
      && !s.ws[w].exec.Mark?
    ensures Counted(s')
  {
  }

  lemma RecordCounted(b: Block, s: State, w: nat, s': State)
    requires Sizes(b, s) && Counted(s) && StepBy(b, s, w, s') && !s.sh.aborted && s.ws[w].Exec? && s.ws[w].exec.Record?
    ensures Counted(s')
  {
  }

  lemma RunCounted(b: Block, s: State, w: nat, s': State)
    requires Sizes(b, s) && Counted(s) && StepBy(b, s, w, s') && !s.sh.aborted && s.ws[w].Exec? && s.ws[w].exec.Run?
    ensures Counted(s')
  {
  }

  lemma ValCounted(b: Block, s: State, w: nat, s': State)
    requires Sizes(b, s) && Owned(s) && Counted(s) && StepBy(b, s, w, s') && !s.sh.aborted && s.ws[w].Valid?
    ensures Counted(s')
  {
    hide WorkerStep, DependentsFit, OneOwner, SomeOwner;
    assert Fits(s.sh, s.ws[w]);
    var v := s.ws[w].val;
    if v.Refute? || v.Confirm? || v.MakeReady? || v.Retry? {
      VerdictCounted(b, s, w, s');
    } else {
      CheckCounted(b, s, w, s');
    }
  }

  lemma VerdictCounted(b: Block, s: State, w: nat, s': State)
    requires Counted(s) && StepBy(b, s, w, s') && !s.sh.aborted && s.ws[w].Valid? && Fits(s.sh, s.ws[w])
    requires s.ws[w].val.Refute? || s.ws[w].val.Confirm? || s.ws[w].val.MakeReady? || s.ws[w].val.Retry?
    ensures Counted(s')
  {
    if s'.sh.status != s.sh.status {
      CountUpdated(s.sh.status, s.ws[w].tx, s'.sh.status[s.ws[w].tx]);
    }
  }

  lemma CheckCounted(b: Block, s: State, w: nat, s': State)
    requires Counted(s) && StepBy(b, s, w, s') && !s.sh.aborted && s.ws[w].Valid? && Fits(s.sh, s.ws[w])
    requires !s.ws[w].val.Refute? && !s.ws[w].val.Confirm? && !s.ws[w].val.MakeReady? && !s.ws[w].val.Retry?
    ensures Counted(s')
  {
  }

  // ---------------------------------------------------------------- leaving next_task

  /** The worker left, or loaded an execution index past the block in its current round. */
  predicate SawExecution(w: Worker, n: nat) {
    w.Left? || (w.Seek? && ((w.seek.LoadValidation? && w.seek.e >= n) || w.seek.LoadNumValidated?
      || w.seek.LoadMinValidation?))
  }

  /** The worker left, or loaded both indexes past the block in its current round. */
  predicate SawValidation(w: Worker) {
    w.Left? || (w.Seek? && (w.seek.LoadNumValidated? || w.seek.LoadMinValidation?))
  }

  /** The indexes are loaded one after the other, but the last worker to load one saw its final value. */
  ghost predicate Exits(s: State) {
    && ((forall u :: 0 <= u < |s.ws| ==> SawExecution(s.ws[u], |s.sh.status|)) ==> s.sh.executionIdx >= |s.sh.status|)
    && ((forall u :: 0 <= u < |s.ws| ==> SawValidation(s.ws[u])) ==> s.sh.validationIdx >= |s.sh.status|)
  }

  /** Only `next_task` leads to the phases in which a worker has loaded an index. */
  lemma WorkHasNotSeen(b: Block, s: State, w: nat, s': State)
    requires StepBy(b, s, w, s') && !s'.sh.aborted && !s.ws[w].Seek?
    ensures !SawExecution(s'.ws[w], |s.sh.status|) && !SawValidation(s'.ws[w])
  {
  }

  lemma SeekExits(b: Block, s: State, w: nat, s': State)
    requires StepBy(b, s, w, s') && !s'.sh.aborted && s.ws[w].Seek?
    ensures SawExecution(s'.ws[w], |s.sh.status|) && !SawExecution(s.ws[w], |s.sh.status|) ==>
      s'.sh.executionIdx >= |s.sh.status|
    ensures SawValidation(s'.ws[w]) && !SawValidation(s.ws[w]) ==> s'.sh.validationIdx >= |s.sh.status|
    ensures SawExecution(s'.ws[w], |s.sh.status|) ==> s'.sh.executionIdx == s.sh.executionIdx
    ensures SawValidation(s'.ws[w]) ==> s'.sh.validationIdx == s.sh.validationIdx
  {
  }

  lemma StepExits(b: Block, s: State, w: nat, s': State)
    requires Exits(s) && StepBy(b, s, w, s') && !s'.sh.aborted && |s'.sh.status| == |s.sh.status|
    ensures Exits(s')
  {
    hide WorkerStep;
    var n := |s.sh.status|;
    if s.ws[w].Seek? {
      SeekExits(b, s, w, s');
    } else {
      WorkHasNotSeen(b, s, w, s');
    }
    forall u | 0 <= u < |s.ws| && u != w ensures s'.ws[u] == s.ws[u] {}
    if forall u :: 0 <= u < |s'.ws| ==> SawExecution(s'.ws[u], n) {
      assert SawExecution(s'.ws[w], n);
      if SawExecution(s.ws[w], n) {
        assert forall u :: 0 <= u < |s.ws| ==> SawExecution(s.ws[u], n);
      }
    }
    if forall u :: 0 <= u < |s'.ws| ==> SawValidation(s'.ws[u]) {
      assert SawValidation(s'.ws[w]);
      if SawValidation(s.ws[w]) {
        assert forall u :: 0 <= u < |s.ws| ==> SawValidation(s.ws[u]);
      }
    }
  }

  // ---------------------------------------------------------------- the invariant of all runs

  /** The run was aborted, or a worker has met an error and is about to abort it. */
  ghost predicate Doomed(s: State) {
    s.sh.aborted || exists u :: 0 <= u < |s.ws| && s.ws[u].Raise?
  }

  ghost predicate Sound(b: Block, s: State) {
    Sizes(b, s) && Owned(s) && Versioned(b, s) && Pending(s) && Counted(s) && Exits(s)
  }

  ghost predicate Inv(b: Block, s: State) {
    Doomed(s) || Sound(b, s)
  }

  lemma {:induction false} InitialCount(q: seq<TxStatus>)
    requires forall i :: 0 <= i < |q| ==> !q[i].status.Validated?
    ensures CountValidated(q) == 0
  {
    if q != [] {
      InitialCount(q[..|q| - 1]);
    }
  }

  lemma InitSound(b: Block, s: State)
    requires Init(b, s) && WritesEstimates(b)
    ensures Sound(b, s)
  {
    InitialCount(s.sh.status);
    assert forall i: nat :: !Owns(Seek(Begin), i);
    assert Owned(s);
    forall j | 0 <= j < |s.sh.status| ensures TxStored(b, s.sh, j) {
      assert OnlyEstimates(b, s.sh, j);
    }
    forall l ensures Agrees(s.sh.history, l, At(s.sh.data, l)) {}
    assert Versioned(b, s);
    forall i: nat, l ensures !Stale(s.sh, i, l) {}
    assert Pending(s);
    assert !SawExecution(s.ws[0], |s.sh.status|) && !SawValidation(s.ws[0]);
  }

  lemma CountersStep(b: Block, s: State, w: nat, s': State)
    requires Sizes(b, s) && Owned(s) && Counted(s) && StepBy(b, s, w, s') && !s'.sh.aborted
    ensures Counted(s')
  {
    hide DependentsFit, OneOwner, SomeOwner;
    match s.ws[w]
    case Seek(_) => SeekCounted(b, s, w, s');
    case Exec(_, _, _) => ExecCounted(b, s, w, s');
    case Valid(_, _) => ValCounted(b, s, w, s');
    case _ =>
  }

  /** The abort flag is never lowered, and a worker that met an error only raises it. */
  lemma StepDoomed(b: Block, s: State, w: nat, s': State)
    requires Doomed(s) && StepBy(b, s, w, s')
    ensures Doomed(s')
  {
    if !s.sh.aborted {
      var u :| 0 <= u < |s.ws| && s.ws[u].Raise?;
      if u != w {
        assert s'.ws[u].Raise?;
      }
    } else {
      StepStaysAborted(b, s, w, s');
    }
  }

  lemma StepStaysAborted(b: Block, s: State, w: nat, s': State)
    requires s.sh.aborted && StepBy(b, s, w, s')
    ensures s'.sh.aborted
  {
  }

  lemma StepInv(b: Block, s: State, w: nat, s': State)
    requires Inv(b, s) && StepBy(b, s, w, s')
    ensures Inv(b, s')
  {
    if Doomed(s) {
      StepDoomed(b, s, w, s');
    } else if !Doomed(s') {
      StepOwned(b, s, w, s');
      StepVersioned(b, s, w, s');
      StepPending(b, s, w, s');
      CountersStep(b, s, w, s');
      StepExits(b, s, w, s');
    }
  }

  /** Every state of every run satisfies the invariant. */
  lemma {:induction false} RunInv(b: Block, run: seq<State>, movers: seq<nat>, k: nat)
    requires IsRun(b, run, movers) && WritesEstimates(b) && k < |run|
    ensures Inv(b, run[k])
    decreases k
  {
    if k == 0 {
      InitSound(b, run[0]);
    } else {
      RunInv(b, run, movers, k - 1);
      assert StepBy(b, run[k - 1], movers[k - 1], run[k - 1 + 1]);
      StepInv(b, run[k - 1], movers[k - 1], run[k]);
    }
  }
}
