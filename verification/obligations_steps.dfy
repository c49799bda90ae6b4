/** Every step keeps the pending obligations. */
module ObligationsSteps {
  import opened MemoryModel
  import opened TransactionProgram
  import opened Protocol
  import opened Ownership
  import opened VersionsInvariant
  import opened Obligations

  /** The worker moves on, the shared state is untouched, and the worker keeps what it is bound to do. */
  lemma StillPending(s: State, s': State, w: nat)
    requires Moved(s, s', w) && Pending(s) && s'.sh == s.sh
    requires forall i: nat :: WillTry(s.ws[w], i) && i < |s.sh.status| && s.sh.status[i].status.ReadyToExecute? ==>
      WillTry(s'.ws[w], i) || s.sh.executionIdx <= i
    requires forall i: nat, l ::
      Covers(s.ws[w], i, l) && i < |s.sh.status| && Finished(s.sh.status[i]) && Stale(s.sh, i, l) ==>
        Covers(s'.ws[w], i, l) || s.sh.validationIdx <= i
    requires forall i: nat :: Judges(s.ws[w], i) && i < |s.sh.status| && s.sh.status[i].status.Executed? ==>
      Judges(s'.ws[w], i)
    requires forall u :: 0 <= u < |s.ws| && s.ws[u].Exec? && s.ws[u].exec == Mark(false) ==> !Peeks(s.ws[w], s.ws[u].tx)
    requires s'.ws[w].Exec? && s'.ws[w].exec == Mark(false) ==> s'.sh.validationIdx <= s'.ws[w].tx
    ensures Pending(s')
  {
    ReadyKept(s, s', w);
    StaleKept(s, s', w);
    ValidationKept(s, s', w);
    MarkKept(s, s', w);
  }

  /** A ready transaction is taken: nobody has to try, validate or mark it any more. */
  lemma TakenPending(s: State, s': State, w: nat, i: nat)
    requires Moved(s, s', w) && Pending(s) && i < |s.sh.status| && s.sh.status[i].status.ReadyToExecute?
      && StatusFree(s, i)
    requires s'.sh == SetStatus(s.sh, i, Executing) && s'.ws[w] == StartRun(s.sh, i)
    requires s.ws[w] == Seek(PeekValidation(i)) || s.ws[w] == Seek(PeekExecution(i)) || s.ws[w] == Valid(i, Retry)
    ensures Pending(s')
  {
    ReadyKept(s, s', w);
    StaleKept(s, s', w);
    ValidationKept(s, s', w);
    forall u | 0 <= u < |s.ws| && s.ws[u].Exec? && s.ws[u].exec == Mark(false) ensures !Peeks(s.ws[w], s.ws[u].tx) {
      assert HoldsStatus(s.ws[u], s.ws[u].tx);
    }
    MarkKept(s, s', w);
  }

  lemma SeekPending(b: Block, s: State, w: nat, s': State)
    requires Sizes(b, s) && Owned(s) && Pending(s) && StepBy(b, s, w, s') && !s.sh.aborted && s.ws[w].Seek?
    ensures Pending(s')
  {
    hide DependentsFit, OneOwner, SomeOwner, ReadyPending, StalePending, ValidationPending, MarkPending;
    var k := s.ws[w].seek;
    if k.BumpValidation? || k.BumpExecution? {
      forall u | 0 <= u < |s.ws| && s.ws[u].Exec? ensures s.ws[u].tx < |s.sh.status| {
        assert Fits(s.sh, s.ws[u]);
      }
      ReadyKept(s, s', w);
      StaleKept(s, s', w);
      ValidationKept(s, s', w);
      MarkKept(s, s', w);
    } else if k.PeekValidation? {
      if s.sh.status[k.t].status.ReadyToExecute? {
        TakenPending(s, s', w, k.t);
      } else {
        forall u | 0 <= u < |s.ws| && s.ws[u].Exec? && s.ws[u].exec == Mark(false) ensures !Peeks(s.ws[w], s.ws[u].tx) {
          assert HoldsStatus(s.ws[u], s.ws[u].tx);
        }
        StillPending(s, s', w);
      }
    } else if k.PeekExecution? && s.sh.status[k.t].status.ReadyToExecute? {
      TakenPending(s, s', w, k.t);
    } else {
      StillPending(s, s', w);
    }
  }

  // ---------------------------------------------------------------- executing

  /** The read set of an unfinished transaction is replaced. */
  lemma BeginRecordPending(s: State, s': State, w: nat)
    requires Moved(s, s', w) && Pending(s) && s.ws[w].Exec? && s.ws[w].exec.Run? && s'.ws[w].Exec?
      && s'.ws[w].exec.Record?
    requires s.ws[w].tx < |s.sh.status| == |s.sh.lastReads| && s.sh.status[s.ws[w].tx].status.Executing?
    requires s'.sh == s.sh.(lastReads := s'.sh.lastReads, history := s'.sh.history)
    requires |s'.sh.lastReads| == |s.sh.lastReads| && forall j :: 0 <= j < |s.sh.lastReads| && j != s.ws[w].tx ==>
      s'.sh.lastReads[j] == s.sh.lastReads[j]
    ensures Pending(s')
  {
    ReadyKept(s, s', w);
    forall i, l | 0 <= i < |s.sh.status| && Finished(s'.sh.status[i]) && Stale(s'.sh, i, l) ensures Stale(s.sh, i, l) {}
    StaleKept(s, s', w);
    ValidationKept(s, s', w);
    MarkKept(s, s', w);
  }

  lemma RunPending(b: Block, s: State, w: nat, s': State)
    requires Sizes(b, s) && Owned(s) && Pending(s) && StepBy(b, s, w, s') && !s.sh.aborted
    requires s.ws[w].Exec? && s.ws[w].exec.Run? && !s'.ws[w].Raise?
    ensures Pending(s')
  {
    hide DependentsFit, OneOwner, SomeOwner, ReadyPending, StalePending, ValidationPending, MarkPending;
    assert Fits(s.sh, s.ws[w]);
    var a := Next(b.txs[s.ws[w].tx], s.ws[w].exec.values);
    if a.Finish? && a.outcome.Done? {
      BeginRecordPending(s, s', w);
    } else {
      StillPending(s, s', w);
    }
  }

  /** `record` changes the entry of its transaction at one location. A read can become outdated only if the
      location is new, and then the worker remembers to lower the validation index. */
  lemma EntryPending(s: State, s': State, w: nat)
    requires Moved(s, s', w) && Pending(s) && s.ws[w].Exec? && s.ws[w].exec.Record? && s'.ws[w].Exec?
      && s'.ws[w].exec.Record?
    requires s'.ws[w].tx == s.ws[w].tx && (s.ws[w].exec.wroteNew ==> s'.ws[w].exec.wroteNew)
    requires s'.sh == s.sh.(data := s'.sh.data, lastWrites := s'.sh.lastWrites)
    requires forall i: nat, l :: i < |s.sh.status| && Stale(s'.sh, i, l) && !Stale(s.sh, i, l) ==>
      i > s.ws[w].tx && s'.ws[w].exec.wroteNew
    ensures Pending(s')
  {
    ReadyKept(s, s', w);
    StaleKept(s, s', w);
    ValidationKept(s, s', w);
    MarkKept(s, s', w);
  }

  lemma ForgetPending(b: Block, s: State, s': State, w: nat, l: Loc)
    requires Moved(s, s', w) && Pending(s) && s.ws[w].Exec? && s.ws[w].exec.Record? && Stored(b, s.sh, s.ws[w])
    requires s.ws[w].tx < |s.sh.lastWrites| && l in s.ws[w].exec.stale && s'.sh == ForgetAt(s.sh, s.ws[w].tx, l)
    requires s'.ws[w] == s.ws[w].(exec := s.ws[w].exec.(stale := s.ws[w].exec.stale - {l}))
    ensures Pending(s')
  {
    var i := s.ws[w].tx;
    if i in At(s.sh.data, l) {
      EstimateGone(s.sh, s'.sh, i, l);
    } else if l in s.sh.data {
      assert s.sh.data[l] - {i} == s.sh.data[l];
      assert s'.sh.data == s.sh.data;
    }
    EntryPending(s, s', w);
  }

  lemma WritePending(b: Block, s: State, s': State, w: nat, l: Loc)
    requires Moved(s, s', w) && Pending(s) && s.ws[w].Exec? && s.ws[w].exec.Record? && Stored(b, s.sh, s.ws[w])
    requires s.ws[w].tx < |s.sh.lastWrites| && l in s.ws[w].exec.todo && s.ws[w].exec.stale == {}
      && l in s.ws[w].exec.out.writeSet
    requires s'.sh == WriteAt(s.sh, s.ws[w].tx, l, Data(s.ws[w].inc, s.ws[w].exec.out.writeSet[l]))
    requires s'.ws[w] == s.ws[w].(exec := s.ws[w].exec.(todo := s.ws[w].exec.todo - {l},
      wroteNew := s.ws[w].exec.wroteNew || l !in s.sh.lastWrites[s.ws[w].tx]))
    ensures Pending(s')
  {
    var i := s.ws[w].tx;
    if l in s.sh.lastWrites[i] {
      assert i in At(s.sh.data, l) && At(s.sh.data, l)[i].Estimate?;
      EstimateGone(s.sh, s'.sh, i, l);
    } else {
      OnlyHigher(s.sh, s'.sh, i, l);
    }
    EntryPending(s, s', w);
  }

  lemma RecordPending(b: Block, s: State, w: nat, s': State)
    requires Sizes(b, s) && Versioned(b, s) && Pending(s) && StepBy(b, s, w, s') && !s.sh.aborted
    requires s.ws[w].Exec? && s.ws[w].exec.Record?
    ensures Pending(s')
  {
    var i, inc, e := s.ws[w].tx, s.ws[w].inc, s.ws[w].exec;
    assert Stored(b, s.sh, s.ws[w]);
    if e.stale != {} {
      var l :| l in e.stale && s'.sh == ForgetAt(s.sh, i, l)
        && s'.ws[w] == Exec(i, inc, Record(e.out, e.stale - {l}, e.todo, e.wroteNew));
      ForgetPending(b, s, s', w, l);
    } else if e.todo != {} {
      var l :| l in e.todo && l in e.out.writeSet && s'.sh == WriteAt(s.sh, i, l, Data(inc, e.out.writeSet[l]))
               && s'.ws[w] == Exec(i, inc, Record(e.out, e.stale, e.todo - {l}, e.wroteNew
                  || l !in s.sh.lastWrites[i]));
      WritePending(b, s, s', w, l);
    } else {
      StillPending(s, s', w);
    }
  }

  /** The rest of `finish_execution`, and `add_dependency`. */
  lemma FinishPending(b: Block, s: State, w: nat, s': State)
    requires Sizes(b, s) && Owned(s) && Pending(s) && StepBy(b, s, w, s') && !s.sh.aborted
    requires s.ws[w].Exec? && !s.ws[w].exec.Run? && !s.ws[w].exec.Record?
    ensures Pending(s')
  {
    hide DependentsFit, OneOwner, SomeOwner, ReadyPending, StalePending, ValidationPending, MarkPending;
    assert Fits(s.sh, s.ws[w]);
    ReadyKept(s, s', w);
    FinishStale(b, s, w, s');
    FinishValidation(b, s, w, s');
    MarkKept(s, s', w);
  }

  lemma FinishStale(b: Block, s: State, w: nat, s': State)
    requires Sizes(b, s) && Owned(s) && Pending(s) && StepBy(b, s, w, s') && !s.sh.aborted
    requires s.ws[w].Exec? && !s.ws[w].exec.Run? && !s.ws[w].exec.Record?
    ensures StalePending(s')
  {
    hide DependentsFit, OneOwner, SomeOwner, ReadyPending, ValidationPending;
    assert Fits(s.sh, s.ws[w]);
    if s.ws[w].exec == Mark(false) && s.sh.validationIdx > s.ws[w].tx {
      MarkStale(s, s', w);
    } else {
      StaleKept(s, s', w);
    }
  }

  /** A transaction marked as executed above which the validation index has passed has a worker that peeks at it. */
  lemma MarkStale(s: State, s': State, w: nat)
    requires Moved(s, s', w) && StalePending(s) && MarkPending(s) && s.ws[w].Exec? && s.ws[w].exec == Mark(false)
      && s.sh.validationIdx > s.ws[w].tx
    requires s.ws[w].tx < |s.sh.status| && s'.sh == SetStatus(s.sh, s.ws[w].tx, Executed)
    ensures StalePending(s')
  {
    var i := s.ws[w].tx;
    var v :| 0 <= v < |s.ws| && Peeks(s.ws[v], i);
    forall k, l | 0 <= k < |s'.sh.status| && Finished(s'.sh.status[k]) && Stale(s'.sh, k, l)
      ensures s'.sh.validationIdx <= k || exists u :: 0 <= u < |s'.ws| && Covers(s'.ws[u], k, l)
    {
      if k == i {
        assert Covers(s'.ws[v], k, l);
      } else if s.sh.validationIdx > k {
        assert Stale(s.sh, k, l);
        var u :| 0 <= u < |s.ws| && Covers(s.ws[u], k, l);
        assert u != w;
        assert Covers(s'.ws[u], k, l);
      }
    }
  }

  lemma FinishValidation(b: Block, s: State, w: nat, s': State)
    requires Sizes(b, s) && Owned(s) && Pending(s) && StepBy(b, s, w, s') && !s.sh.aborted
    requires s.ws[w].Exec? && !s.ws[w].exec.Run? && !s.ws[w].exec.Record?
    ensures ValidationPending(s')
  {
    hide DependentsFit, OneOwner, SomeOwner, ReadyPending, StalePending;
    assert Fits(s.sh, s.ws[w]);
    var i := s.ws[w].tx;
    if s.ws[w].exec == Mark(false) && s.sh.validationIdx > i {
      var v :| 0 <= v < |s.ws| && Peeks(s.ws[v], i);
      assert Peeks(s'.ws[v], i);
    }
    ValidationKept(s, s', w);
  }

  // ---------------------------------------------------------------- validating

  lemma EstimatePending(b: Block, s: State, s': State, w: nat, l: Loc)
    requires Moved(s, s', w) && Pending(s) && s.ws[w].Valid? && s.ws[w].val.Estimating? && Stored(b, s.sh, s.ws[w])
    requires l in s.ws[w].val.left && s'.sh == EstimateAt(s.sh, s.ws[w].tx, l)
    requires s'.ws[w] == s.ws[w].(val := Estimating(s.ws[w].val.left - {l}))
    ensures Pending(s')
  {
    if l in s.sh.data {
      OnlyHigher(s.sh, s'.sh, s.ws[w].tx, l);
    }
    ReadyKept(s, s', w);
    StaleKept(s, s', w);
    ValidationKept(s, s', w);
    MarkKept(s, s', w);
  }

  lemma CheckPending(b: Block, s: State, w: nat, s': State)
    requires Sizes(b, s) && Pending(s) && StepBy(b, s, w, s') && !s.sh.aborted && s.ws[w].Valid? && s.ws[w].val.Check?
    ensures Pending(s')
  {
    var i, left := s.ws[w].tx, s.ws[w].val.left;
    if left != {} {
      var l :| l in left && l in s.sh.lastReads[i] && s'.ws[w] == Valid(i, CheckAt(s.sh, i, left, l));
    }
    StillPending(s, s', w);
  }

  lemma VerdictPending(b: Block, s: State, w: nat, s': State)
    requires Sizes(b, s) && Owned(s) && Pending(s) && StepBy(b, s, w, s') && !s.sh.aborted && s.ws[w].Valid?
    requires s.ws[w].val.Refute? || s.ws[w].val.Confirm? || s.ws[w].val.MakeReady? || s.ws[w].val.LowerAfterAbort?
    ensures Pending(s')
  {
    hide DependentsFit, OneOwner, SomeOwner, ReadyPending, StalePending, ValidationPending, MarkPending, ExecStep;
    assert Fits(s.sh, s.ws[w]);
    ReadyKept(s, s', w);
    StaleKept(s, s', w);
    ValidationKept(s, s', w);
    MarkKept(s, s', w);
  }

  lemma ValPending(b: Block, s: State, w: nat, s': State)
    requires Sizes(b, s) && Owned(s) && Versioned(b, s) && Pending(s) && StepBy(b, s, w, s') && !s.sh.aborted
      && s.ws[w].Valid?
    ensures Pending(s')
  {
    hide DependentsFit, OneOwner, SomeOwner, ReadyPending, StalePending, ValidationPending, MarkPending, ExecStep;
    var i, v := s.ws[w].tx, s.ws[w].val;
    match v
    case Check(_) => CheckPending(b, s, w, s');
    case Refute => VerdictPending(b, s, w, s');
    case Confirm => VerdictPending(b, s, w, s');
    case MakeReady => VerdictPending(b, s, w, s');
    case LowerAfterAbort => VerdictPending(b, s, w, s');
    case Estimating(left) =>
      if left == {} {
        StillPending(s, s', w);
      } else {
        assert Stored(b, s.sh, s.ws[w]);
        var l :| l in left && s'.sh == EstimateAt(s.sh, i, l) && s'.ws[w] == Valid(i, Estimating(left - {l}));
        EstimatePending(b, s, s', w, l);
      }
    case Retry =>
      if s.sh.status[i].status.ReadyToExecute? {
        TakenPending(s, s', w, i);
      } else {
        StillPending(s, s', w);
      }
    case _ => StillPending(s, s', w);
  }

  /** No step of any worker loses an obligation, as long as the run is not aborted. */
  lemma StepPending(b: Block, s: State, w: nat, s': State)
    requires Sizes(b, s) && Owned(s) && Versioned(b, s) && Pending(s) && StepBy(b, s, w, s') && !s'.sh.aborted
      && !s'.ws[w].Raise?
    ensures Pending(s')
  {
    hide Owned, Versioned, Pending;
    match s.ws[w]
    case Seek(_) => SeekPending(b, s, w, s');
    case Exec(_, _, e) =>
      if e.Run? {
        RunPending(b, s, w, s');
      } else if e.Record? {
        RecordPending(b, s, w, s');
      } else {
        FinishPending(b, s, w, s');
      }
    case Valid(_, _) => ValPending(b, s, w, s');
    case _ =>
  }
}
