/** The promises of the optimistic executor: when every worker has left an unaborted
    run, all transactions are validated on valid reads, and the block ends as if the
    transactions had run one after another, each with the same kind of reads. When those
    reads are exact, it ends in the sequential state. */
module Serializability {
  import opened Collections
  import opened MemoryModel
  import opened TransactionProgram
  import opened SerialExecution
  import opened Protocol
  import opened Ownership
  import opened VersionsInvariant
  import opened Obligations
  import opened Completion

  // ---------------------------------------------------------------- no work is lost

  /** The worker holds a task or has claimed an index it will look at. */
  predicate Busy(w: Worker) {
    w.Exec? || w.Valid? || (w.Seek? && (w.seek.PeekValidation? || w.seek.PeekExecution?))
  }

  ghost predicate Idle(s: State) {
    && s.sh.executionIdx >= |s.sh.status| && s.sh.validationIdx >= |s.sh.status|
    && forall u :: 0 <= u < |s.ws| ==> !Busy(s.ws[u])
  }

  ghost predicate AllValid(s: State) {
    && (forall i :: 0 <= i < |s.sh.status| ==> s.sh.status[i].status.Validated?)
    && (forall i: nat, l :: i < |s.sh.status| ==> !Stale(s.sh, i, l))
  }

  /** An idle worker is bound to nothing. */
  lemma IdleHands(s: State, i: nat, l: Loc)
    requires Idle(s)
    ensures forall u :: 0 <= u < |s.ws| ==>
      !WillTry(s.ws[u], i) && !Owns(s.ws[u], i) && !Executes(s.ws[u], i) && !Judges(s.ws[u], i)
        && !Covers(s.ws[u], i, l)
  {
    forall u | 0 <= u < |s.ws|
      ensures !WillTry(s.ws[u], i) && !Owns(s.ws[u], i) && !Executes(s.ws[u], i) && !Judges(s.ws[u], i)
        && !Covers(s.ws[u], i, l)
    {
      assert !Busy(s.ws[u]);
    }
  }

  /** Wait-for chains lead to lower transactions, so in an idle state nothing waits. */
  lemma {:induction false} IdleFinished(b: Block, s: State, i: nat)
    requires Sound(b, s) && Idle(s) && i < |s.sh.status|
    ensures Finished(s.sh.status[i])
    decreases i
  {
    IdleHands(s, i, 0);
    if s.sh.status[i].status.Aborting? {
      var j: nat :| Waits(s.sh, j, i);
      IdleFinished(b, s, j);
    }
  }

  /** A state with no worker busy and both indexes past the block has nothing left to do; in any
      other state of an unaborted run some worker holds work or an index still points to some. */
  lemma NotStuck(b: Block, s: State)
    requires Sound(b, s) && Idle(s)
    ensures AllValid(s) && s.sh.numValidated == |s.sh.status|
  {
    forall i: nat, l | i < |s.sh.status| ensures s.sh.status[i].status.Validated? && !Stale(s.sh, i, l) {
      IdleFinished(b, s, i);
      IdleHands(s, i, l);
    }
    forall i | 0 <= i < |s.sh.status| ensures s.sh.status[i].status.Validated? {
      assert !Stale(s.sh, i, 0);
    }
    CountAll(s.sh.status);
  }

  /** In every reachable state, a finished transaction with an outdated read has a pending obligation. */
  lemma StaleReadIsPending(b: Block, run: seq<State>, movers: seq<nat>, k: nat, i: nat, l: Loc)
    requires IsRun(b, run, movers) && WritesEstimates(b) && k < |run| && !Doomed(run[k])
    requires i < |b.txs| && |run[k].sh.status| == |b.txs| && Finished(run[k].sh.status[i]) && Stale(run[k].sh, i, l)
    ensures run[k].sh.validationIdx <= i || exists u :: 0 <= u < |run[k].ws| && Covers(run[k].ws[u], i, l)
  {
    RunInv(b, run, movers, k);
  }

  /** When the last worker leaves without an abort, every transaction is validated and its reads are valid. */
  lemma CompletedIsValid(b: Block, run: seq<State>, movers: seq<nat>)
    requires IsRun(b, run, movers) && WritesEstimates(b) && Completed(run[|run| - 1])
    ensures Sound(b, run[|run| - 1]) && AllValid(run[|run| - 1])
    ensures run[|run| - 1].sh.numValidated == |b.txs|
  {
    var s := run[|run| - 1];
    RunInv(b, run, movers, |run| - 1);
    assert forall u :: 0 <= u < |s.ws| ==> SawExecution(s.ws[u], |s.sh.status|) && SawValidation(s.ws[u]);
    NotStuck(b, s);
  }

  // ---------------------------------------------------------------- equal to sequential execution

  /** A valid read saw what a walk over the memory below its transaction finds now. */
  lemma ValidReadIsCurrent(b: Block, s: State, i: nat, l: Loc)
    requires Sound(b, s) && AllValid(s) && i < |s.sh.status|
    requires Recorded(s.sh, i) && l in s.sh.lastReads[i] && ReadsOk(s.sh.history, i, s.sh.lastReads[i])
    ensures Answers(b, s.sh.history, i, s.sh.lastReads[i])[l] == WalkValue(At(s.sh.data, l), i, b.storage(l))
  {
    var m, os := At(s.sh.data, l), s.sh.lastReads[i][l];
    assert !Stale(s.sh, i, l) && Agrees(s.sh.history, l, m);
    if l !in s.sh.data {
      StorageOnly(os, i);
    }
    MatchesIsWalk(s.sh.history, l, m, i, i, os);
    WalkEvaluates(s.sh.history, l, m, i, b.storage(l), NO_UPDATES);
  }

  /** In a state without invalid reads, what a transaction recorded last is its result, its entries, and
      the outcome of its program on what a walk over the memory finds now. */
  lemma LastIsCurrent(b: Block, s: State, j: nat)
    requires Sound(b, s) && AllValid(s) && j < |b.txs|
    ensures Entries(s.sh, j, {}) && ExecutionOk(b, s.sh.history, j, Last(s.sh, j))
    ensures |s.sh.results| == |b.txs| && s.sh.results[j] == Some(Last(s.sh, j).result)
    ensures forall l :: l in Last(s.sh, j).readSet ==>
      Answers(b, s.sh.history, j, Last(s.sh, j).readSet)[l] == WalkValue(At(s.sh.data, l), j, b.storage(l))
  {
    assert TxStored(b, s.sh, j);
    forall l | l in Last(s.sh, j).readSet
      ensures Answers(b, s.sh.history, j, Last(s.sh, j).readSet)[l] == WalkValue(At(s.sh.data, l), j, b.storage(l))
    {
      ValidReadIsCurrent(b, s, j, l);
    }
  }

  /** On the entries of the serial execution a transaction has its serial outcome. */
  lemma SerialStep(b: Block, s: State, j: nat)
    requires Sound(b, s) && AllValid(s) && j < |b.txs|
    requires forall l :: SameValues(At(s.sh.data, l), SerialVersions(b, j, l), j)
    ensures Entries(s.sh, j, {}) && SerialOutcome(b, j) == Done(Last(s.sh, j).writeSet, Last(s.sh, j).result)
  {
    LastIsCurrent(b, s, j);
    hide Sound, AllValid, SameValues, Entries, At;
    var x, f := Last(s.sh, j), (l: Loc) => WalkValue(SerialVersions(b, j, l), j, b.storage(l));
    forall l | l in x.readSet ensures f(l) == Answers(b, s.sh.history, j, x.readSet)[l] {
      SameWalk(At(s.sh.data, l), SerialVersions(b, j, l), j, b.storage(l));
    }
    assert RunFrom(b.txs[j], [], f) == Done(x.writeSet, x.result);
  }

  lemma EntryAdded(b: Block, sh: Shared, j: nat, l: Loc)
    requires j < |b.txs| && Entries(sh, j, {}) && SameValues(At(sh.data, l), SerialVersions(b, j, l), j)
    requires SerialOutcome(b, j) == Done(Last(sh, j).writeSet, Last(sh, j).result)
    ensures SameValues(At(sh.data, l), SerialVersions(b, j + 1, l), j + 1)
  {
    hide SerialOutcome;
    assert j in At(sh.data, l) <==> l in Last(sh, j).writeSet;
  }

  /** The entries below `i` are the writes of the serial execution before `i`, and every transaction
      below `i` has its serial outcome. */
  lemma {:induction false} PrefixIsSerial(b: Block, s: State, i: nat)
    requires Sound(b, s) && AllValid(s) && i <= |b.txs|
    ensures forall l :: SameValues(At(s.sh.data, l), SerialVersions(b, i, l), i)
    ensures forall j :: 0 <= j < i ==>
      Entries(s.sh, j, {}) && SerialOutcome(b, j) == Done(Last(s.sh, j).writeSet, Last(s.sh, j).result)
    decreases i
  {
    hide Sound, AllValid, At, Entries, SerialVersions, SerialOutcome;
    if i > 0 {
      PrefixIsSerial(b, s, i - 1);
      SerialStep(b, s, i - 1);
      forall l ensures SameValues(At(s.sh.data, l), SerialVersions(b, i, l), i) {
        EntryAdded(b, s.sh, i - 1, l);
      }
    }
  }

  /** Every unaborted run gives the same block: each transaction has the result it has when the transactions
      run one after another with the reads of `VmDb`, and the memory holds exactly their writes. */
  lemma ParallelIsSerial(b: Block, run: seq<State>, movers: seq<nat>)
    requires IsRun(b, run, movers) && WritesEstimates(b) && Completed(run[|run| - 1])
    ensures var sh := run[|run| - 1].sh;
      && |sh.results| == |b.txs|
      && (forall i :: 0 <= i < |b.txs| ==>
         SerialOutcome(b, i).Done? && sh.results[i] == Some(SerialOutcome(b, i).result))
      && (forall l :: SameValues(At(sh.data, l), SerialVersions(b, |b.txs|, l), |b.txs|))
  {
    hide Sound, AllValid, At, SerialVersions, SerialOutcome, SameValues, Entries;
    var s := run[|run| - 1];
    CompletedIsValid(b, run, movers);
    PrefixIsSerial(b, s, |b.txs|);
    EveryResult(b, s);
  }

  /** A block on which some transaction does not complete serially is never completed: its run is aborted or goes on
      for ever. */
  lemma FaultyBlockNeverCompletes(b: Block, run: seq<State>, movers: seq<nat>, i: nat)
    requires IsRun(b, run, movers) && WritesEstimates(b) && i < |b.txs| && !SerialOutcome(b, i).Done?
    ensures !Completed(run[|run| - 1])
  {
    hide WritesEstimates, SerialOutcome, Completed, StepBy, Init;
    if Completed(run[|run| - 1]) {
      ParallelIsSerial(b, run, movers);
    }
  }

  lemma EveryResult(b: Block, s: State)
    requires Sound(b, s) && AllValid(s)
    ensures |s.sh.results| == |b.txs|
    ensures forall j :: 0 <= j < |b.txs| ==> Entries(s.sh, j, {}) && s.sh.results[j] == Some(Last(s.sh, j).result)
  {
    forall j | 0 <= j < |b.txs| ensures Entries(s.sh, j, {}) && s.sh.results[j] == Some(Last(s.sh, j).result) {
      LastIsCurrent(b, s, j);
    }
  }

  /** As long as every transaction below `i` reads exactly, the entries below `i` give every location its
      value in the sequential execution, and every transaction below `i` has its sequential outcome. */
  lemma PrefixIsSequential(b: Block, s: State, i: nat)
    requires Sound(b, s) && AllValid(s) && i <= |b.txs|
    requires forall j :: 0 <= j < i ==> ReadsExactly(b, j)
    ensures forall l :: ValueBelow(At(s.sh.data, l), i, b.storage(l)) == SequentialState(b, i)(l)
    ensures forall j :: 0 <= j < i ==>
      Entries(s.sh, j, {}) && SequentialOutcome(b, j) == Done(Last(s.sh, j).writeSet, Last(s.sh, j).result)
  {
    hide Sound, AllValid, At, SerialVersions, SerialOutcome, SequentialState, SequentialVersions, SequentialOutcome,
      ReadsExactly, SameValues;
    PrefixIsSerial(b, s, i);
    SerialIsSequential(b, i);
    forall l ensures ValueBelow(At(s.sh.data, l), i, b.storage(l)) == SequentialState(b, i)(l) {
      SequentialIsFold(b, i, l);
      SameWalk(At(s.sh.data, l), SequentialVersions(b, i, l), i, b.storage(l));
    }
  }

  /** Parallel execution equals sequential execution on every block whose sequential execution reads only
      balances in range and accounts that are not forgotten: at the end of every unaborted run, the saved
      results are the sequential ones, and the entries of the memory give every location its final value. */
  lemma ParallelIsSequential(b: Block, run: seq<State>, movers: seq<nat>)
    requires IsRun(b, run, movers) && WritesEstimates(b) && Completed(run[|run| - 1])
    requires forall i :: 0 <= i < |b.txs| ==> ReadsExactly(b, i)
    ensures var sh := run[|run| - 1].sh;
      && |sh.results| == |b.txs|
      && (forall i :: 0 <= i < |b.txs| ==>
         SequentialOutcome(b, i).Done? && sh.results[i] == Some(SequentialOutcome(b, i).result))
      && (forall l :: ValueBelow(At(sh.data, l), |b.txs|, b.storage(l)) == SequentialState(b, |b.txs|)(l))
  {
    hide Sound, AllValid, At, SerialVersions, SerialOutcome, SequentialState, SequentialVersions, SequentialOutcome,
      ReadsExactly, SameValues;
    CompletedIsValid(b, run, movers);
    ParallelIsSerial(b, run, movers);
    PrefixIsSequential(b, run[|run| - 1], |b.txs|);
    SerialIsSequential(b, |b.txs|);
  }

  /** Without that condition the promise fails: on this block every unaborted run reports the spent account
      as missing, although the sequential execution finds it. */
  lemma SpentBlockDiffers(run: seq<State>, movers: seq<nat>)
    requires IsRun(SpentBlock(), run, movers) && Completed(run[|run| - 1])
    ensures var sh := run[|run| - 1].sh;
      |sh.results| == 3 && sh.results[2] == Some(0) && SequentialOutcome(SpentBlock(), 2) == Done(map[], 1)
  {
    hide IsRun, Completed, SerialOutcome, SequentialOutcome, SequentialState, At, SameValues;
    SpentAccountIsMissed();
    SpentEstimates();
    ParallelIsSerial(SpentBlock(), run, movers);
  }

  /** After an unaborted run the memory holds no estimate. */
  lemma NoEstimateRemains(b: Block, run: seq<State>, movers: seq<nat>, l: Loc, i: nat)
    requires IsRun(b, run, movers) && WritesEstimates(b) && Completed(run[|run| - 1])
    requires i < |b.txs| && i in At(run[|run| - 1].sh.data, l)
    ensures At(run[|run| - 1].sh.data, l)[i].Data?
  {
    CompletedIsValid(b, run, movers);
    assert TxStored(b, run[|run| - 1].sh, i);
  }

  // ---------------------------------------------------------------- each incarnation once

  /** Position of a transaction in its life: five statuses per incarnation. */
  function Age(t: TxStatus): nat {
    5 * t.incarnation + match t.status
      case ReadyToExecute => 0
      case Executing => 1
      case Executed => 2
      case Validated => 3
      case Aborting => 4
  }

  ghost predicate Older(sh: Shared, sh': Shared) {
    |sh'.status| == |sh.status| && forall i :: 0 <= i < |sh.status| ==> Age(sh.status[i]) <= Age(sh'.status[i])
  }

  lemma SeekAge(b: Block, s: State, w: nat, s': State)
    requires StepBy(b, s, w, s') && s.ws[w].Seek?
    ensures Older(s.sh, s'.sh)
  {
  }

  lemma ExecAge(b: Block, s: State, w: nat, s': State)
    requires StepBy(b, s, w, s') && s.ws[w].Exec? && Fits(s.sh, s.ws[w])
    ensures Older(s.sh, s'.sh)
  {
    var e := s.ws[w].exec;
    if e.Run? {
      RunAge(b, s, w, s');
    } else if e.Record? {
      RecordAge(b, s, w, s');
    } else if e.Blocked? || e.Resume? || e.Mark? {
      StatusAge(b, s, w, s');
    }
  }

  lemma StatusAge(b: Block, s: State, w: nat, s': State)
    requires StepBy(b, s, w, s') && s.ws[w].Exec? && Fits(s.sh, s.ws[w])
    requires s.ws[w].exec.Blocked? || s.ws[w].exec.Resume? || s.ws[w].exec.Mark?
    ensures Older(s.sh, s'.sh)
  {
  }

  lemma RunAge(b: Block, s: State, w: nat, s': State)
    requires StepBy(b, s, w, s') && s.ws[w].Exec? && s.ws[w].exec.Run?
    ensures s'.sh.status == s.sh.status
  {
  }

  lemma RecordAge(b: Block, s: State, w: nat, s': State)
    requires StepBy(b, s, w, s') && s.ws[w].Exec? && s.ws[w].exec.Record?
    ensures s'.sh.status == s.sh.status
  {
  }

  lemma ValAge(b: Block, s: State, w: nat, s': State)
    requires StepBy(b, s, w, s') && s.ws[w].Valid? && Fits(s.sh, s.ws[w])
    ensures Older(s.sh, s'.sh)
  {
    hide SeekStep, ExecStep;
  }

  /** No step takes a transaction back in its life. */
  lemma AgeGrows(b: Block, s: State, w: nat, s': State)
    requires Owned(s) && StepBy(b, s, w, s') && !s'.sh.aborted
    ensures Older(s.sh, s'.sh)
  {
    assert Fits(s.sh, s.ws[w]);
    match s.ws[w]
    case Seek(_) => SeekAge(b, s, w, s');
    case Exec(_, _, _) => ExecAge(b, s, w, s');
    case Valid(_, _) => ValAge(b, s, w, s');
    case _ =>
  }

  /** The step hands incarnation `inc` of `i` out for execution. */
  ghost predicate HandsOut(s: State, s': State, i: nat, inc: nat) {
    && i < |s.sh.status| == |s'.sh.status|
    && s.sh.status[i] == TxStatus(inc, ReadyToExecute) && s'.sh.status[i] == TxStatus(inc, Executing)
  }

  /** The step aborts incarnation `inc` of `i`. */
  ghost predicate Aborts(s: State, s': State, i: nat, inc: nat) {
    && i < |s.sh.status| == |s'.sh.status|
    && s.sh.status[i].incarnation == inc && !s.sh.status[i].status.Aborting?
       && s'.sh.status[i] == TxStatus(inc, Aborting)
  }

  lemma {:induction false} AgeGrowsAlong(b: Block, run: seq<State>, movers: seq<nat>, x: nat, y: nat)
    requires IsRun(b, run, movers) && WritesEstimates(b) && x <= y < |run| && !Doomed(run[y])
    ensures Older(run[x].sh, run[y].sh) && |run[y].sh.status| == |b.txs|
    decreases y - x
  {
    hide StepBy, Owned, Versioned, Pending, Counted, Exits, WritesEstimates, Init;
    RunInv(b, run, movers, y);
    if x < y {
      NotDoomedBefore(b, run, movers, y - 1);
      RunInv(b, run, movers, y - 1);
      AgeGrowsAlong(b, run, movers, x, y - 1);
      OneStep(b, run, movers, y - 1);
      AgeGrows(b, run[y - 1], movers[y - 1], run[y]);
    }
  }

  lemma OneStep(b: Block, run: seq<State>, movers: seq<nat>, k: nat)
    requires IsRun(b, run, movers) && k < |movers|
    ensures StepBy(b, run[k], movers[k], run[k + 1])
  {
  }

  /** Each incarnation of a transaction is handed out at most once and aborted at most once in a run. */
  lemma OncePerIncarnation(b: Block, run: seq<State>, movers: seq<nat>, x: nat, y: nat, i: nat, inc: nat)
    requires IsRun(b, run, movers) && WritesEstimates(b) && x < |movers| && y < |movers| && i < |b.txs|
    requires !Doomed(run[x + 1]) && !Doomed(run[y + 1])
    requires (HandsOut(run[x], run[x + 1], i, inc) && HandsOut(run[y], run[y + 1], i, inc))
             || (Aborts(run[x], run[x + 1], i, inc) && Aborts(run[y], run[y + 1], i, inc))
    ensures x == y
  {
    if x < y {
      NotDoomedBefore(b, run, movers, y);
      AgeGrowsAlong(b, run, movers, x + 1, y);
    } else if y < x {
      NotDoomedBefore(b, run, movers, x);
      AgeGrowsAlong(b, run, movers, y + 1, x);
    }
  }

  lemma NotDoomedBefore(b: Block, run: seq<State>, movers: seq<nat>, k: nat)
    requires IsRun(b, run, movers) && k < |movers| && !Doomed(run[k + 1])
    ensures !Doomed(run[k])
  {
    assert StepBy(b, run[k], movers[k], run[k + 1]);
    if Doomed(run[k]) {
      StepDoomed(b, run[k], movers[k], run[k + 1]);
    }
  }

  /** In every reachable state of an unaborted run an executing transaction has exactly one executor, and
      an aborting one exactly one holder: a worker, or one lower unfinished transaction it waits for. */
  lemma ExactlyOneOwner(b: Block, run: seq<State>, movers: seq<nat>, k: nat, i: nat)
    requires IsRun(b, run, movers) && WritesEstimates(b) && k < |run| && !Doomed(run[k]) && i < |b.txs|
    ensures |run[k].sh.status| == |b.txs|
    ensures run[k].sh.status[i].status.Executing? ==>
      exists u :: 0 <= u < |run[k].ws| && Executes(run[k].ws[u], i) && forall v ::
        0 <= v < |run[k].ws| && Executes(run[k].ws[v], i) ==> v == u
    ensures run[k].sh.status[i].status.Aborting? ==>
      || (exists u ::
         0 <= u < |run[k].ws| && Owns(run[k].ws[u], i)
         && (forall v :: 0 <= v < |run[k].ws| && Owns(run[k].ws[v], i) ==> v == u)
                      && forall j: nat :: !Waits(run[k].sh, j, i))
      || (exists j: nat ::
         Waits(run[k].sh, j, i) && j < i && !Finished(run[k].sh.status[j])
         && (forall j': nat :: Waits(run[k].sh, j', i) ==> j' == j)
                      && forall v :: 0 <= v < |run[k].ws| ==> !Owns(run[k].ws[v], i))
  {
    RunInv(b, run, movers, k);
    var s := run[k];
    if s.sh.status[i].status.Executing? {
      assert Executor(s, i);
      var u :| 0 <= u < |s.ws| && Executes(s.ws[u], i);
      forall v | 0 <= v < |s.ws| && Executes(s.ws[v], i) ensures v == u {
        assert Owns(s.ws[u], i) && Owns(s.ws[v], i);
      }
    }
    if s.sh.status[i].status.Aborting? {
      assert Holder(s, i);
    }
  }
}
