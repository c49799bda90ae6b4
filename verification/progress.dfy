/** No state of a run is stuck: as long as some worker has not left `next_task`, some worker can take a step.
    Locks are waited for only upwards, and the holder of the highest one is never blocked. */
module Progress {
  import opened Collections
  import opened MemoryModel
  import opened TransactionProgram
  import opened Protocol
  import opened Ownership
  import opened VersionsInvariant
  import opened Obligations
  import opened Completion

  ghost predicate Enabled(b: Block, s: State, w: nat) {
    w < |s.ws| && exists sh', w' :: WorkerStep(b, s, w, sh', w')
  }

  // ---------------------------------------------------------------- reads under validation

  /** The locations a validator has still to check are those of the recorded read set. */
  ghost predicate ChecksRecorded(s: State) {
    forall u :: 0 <= u < |s.ws| ==> CheckFits(s.sh, s.ws[u])
  }

  ghost predicate CheckFits(sh: Shared, w: Worker) {
    w.Valid? && w.val.Check? ==> w.tx < |sh.lastReads| && w.val.left <= sh.lastReads[w.tx].Keys
  }

  lemma SeekChecks(b: Block, s: State, w: nat, s': State)
    requires StepBy(b, s, w, s') && s.ws[w].Seek?
    ensures CheckFits(s'.sh, s'.ws[w]) && s'.sh.lastReads == s.sh.lastReads
  {
  }

  lemma ExecChecks(b: Block, s: State, w: nat, s': State)
    requires StepBy(b, s, w, s') && s.ws[w].Exec?
    ensures CheckFits(s'.sh, s'.ws[w]) && |s'.sh.lastReads| == |s.sh.lastReads|
    ensures forall j :: 0 <= j < |s.sh.lastReads| ==> s'.sh.lastReads[j] == s.sh.lastReads[j] || LocationsFree(s, j)
  {
    if s.ws[w].exec.Record? {
      RecordChecks(b, s, w, s');
    }
  }

  lemma RecordChecks(b: Block, s: State, w: nat, s': State)
    requires StepBy(b, s, w, s') && s.ws[w].Exec? && s.ws[w].exec.Record?
    ensures CheckFits(s'.sh, s'.ws[w]) && s'.sh.lastReads == s.sh.lastReads
  {
  }

  lemma ValChecks(b: Block, s: State, w: nat, s': State)
    requires StepBy(b, s, w, s') && s.ws[w].Valid? && CheckFits(s.sh, s.ws[w])
    ensures CheckFits(s'.sh, s'.ws[w]) && s'.sh.lastReads == s.sh.lastReads
  {
  }

  lemma StepChecks(b: Block, s: State, w: nat, s': State)
    requires StepBy(b, s, w, s') && ChecksRecorded(s)
    ensures ChecksRecorded(s')
  {
    hide WorkerStep;
    assert CheckFits(s.sh, s.ws[w]);
    match s.ws[w] {
      case Seek(_) => SeekChecks(b, s, w, s');
      case Exec(_, _, _) => ExecChecks(b, s, w, s');
      case Valid(_, _) => ValChecks(b, s, w, s');
      case _ => OtherChecks(b, s, w, s');
    }
    forall u | 0 <= u < |s'.ws| ensures CheckFits(s'.sh, s'.ws[u]) {
      if u != w {
        assert CheckFits(s.sh, s.ws[u]);
        if s.ws[u].Valid? && s.ws[u].val.Check? {
          assert HoldsLocations(s.ws[u], s.ws[u].tx);
        }
      }
    }
  }

  lemma OtherChecks(b: Block, s: State, w: nat, s': State)
    requires StepBy(b, s, w, s') && (s.ws[w].Raise? || s.ws[w].Left?)
    ensures CheckFits(s'.sh, s'.ws[w]) && s'.sh.lastReads == s.sh.lastReads
  {
  }

  lemma {:induction false} RunChecks(b: Block, run: seq<State>, movers: seq<nat>, k: nat)
    requires IsRun(b, run, movers) && k < |run|
    ensures ChecksRecorded(run[k])
  {
    if k == 0 {
    } else {
      RunChecks(b, run, movers, k - 1);
      assert StepBy(b, run[k - 1], movers[k - 1], run[k - 1 + 1]);
      StepChecks(b, run[k - 1], movers[k - 1], run[k]);
    }
  }

  // ---------------------------------------------------------------- who can move

  lemma SeekEnabled(b: Block, s: State, w: nat)
    requires w < |s.ws| && s.ws[w].Seek? && Fits(s.sh, s.ws[w])
    requires s.ws[w].seek.PeekValidation? ==> StatusFree(s, s.ws[w].seek.t)
    requires s.ws[w].seek.PeekExecution? ==> StatusFree(s, s.ws[w].seek.t)
    ensures Enabled(b, s, w)
  {
    var sh, n := s.sh, |s.sh.status|;
    match s.ws[w].seek
    case Begin => assert WorkerStep(b, s, w, sh, if sh.aborted then Left else Seek(LoadExecution));
    case LoadExecution => assert WorkerStep(b, s, w, sh, Seek(LoadValidation(sh.executionIdx)));
    case LoadValidation(e) =>
      assert WorkerStep(b, s, w, sh, if e >= n && sh.validationIdx >= n then Seek(LoadNumValidated)
        else if sh.validationIdx < e then Seek(BumpValidation) else Seek(BumpExecution));
    case LoadNumValidated => assert WorkerStep(b, s, w, sh, Seek(LoadMinValidation(sh.numValidated)));
    case LoadMinValidation(num) =>
      assert WorkerStep(b, s, w, sh, if num >= n - sh.minValidationIdx then Left else Seek(Begin));
    case BumpValidation =>
      assert WorkerStep(b, s, w, sh.(validationIdx := sh.validationIdx + 1),
        if sh.validationIdx < n then Seek(PeekValidation(sh.validationIdx)) else Seek(BumpExecution));
    case PeekValidation(t) =>
      match sh.status[t].status {
        case ReadyToExecute => assert WorkerStep(b, s, w, SetStatus(sh, t, Executing), StartRun(sh, t));
        case Executed => assert WorkerStep(b, s, w, sh, Valid(t, Start));
        case Validated => assert WorkerStep(b, s, w, sh, Valid(t, Start));
        case Aborting => assert WorkerStep(b, s, w, sh, Seek(Begin));
        case Executing => assert WorkerStep(b, s, w, sh, Seek(BumpExecution));
      }
    case BumpExecution =>
      assert WorkerStep(b, s, w, sh.(executionIdx := sh.executionIdx + 1),
        if sh.executionIdx < n then Seek(PeekExecution(sh.executionIdx)) else Seek(Begin));
    case PeekExecution(t) =>
      if sh.status[t].status.ReadyToExecute? {
        assert WorkerStep(b, s, w, SetStatus(sh, t, Executing), StartRun(sh, t));
      } else {
        assert WorkerStep(b, s, w, sh, Seek(Begin));
      }
  }

  lemma RunEnabled(b: Block, s: State, w: nat)
    requires Sizes(b, s) && w < |s.ws| && s.ws[w].Exec? && s.ws[w].exec.Run? && Fits(s.sh, s.ws[w])
      && LocationsFree(s, s.ws[w].tx)
    ensures Enabled(b, s, w)
  {
    var sh, i, inc, values, rs := s.sh, s.ws[w].tx, s.ws[w].inc, s.ws[w].exec.values, s.ws[w].exec.readSet;
    match Next(b.txs[i], values) {
      case Read(l) =>
        var m, code := At(sh.data, l), b.isCode(l);
        var prev := if l in rs then Some(rs[l]) else None;
        match Intercept(m, i, code, prev) {
          case Got(os) =>
            var v := InterceptedValue(m, i, code, b.storage(l));
            assert WorkerStep(b, s, w, sh, if v.Destroyed? then Raise
              else Exec(i, inc, Run(values + [v], rs[l := os])));
          case Blocking(j) => assert WorkerStep(b, s, w, sh, Exec(i, inc, Blocked(j)));
          case Inconsistent => assert WorkerStep(b, s, w, sh, Exec(i, inc, Run([], map[])));
        }
      case Finish(o) =>
        match o {
          case Fatal => assert WorkerStep(b, s, w, sh, Raise);
          case NeedsEarlier => assert WorkerStep(b, s, w, sh, if i > 0 then Exec(i, inc, Blocked(i - 1)) else Raise);
          case Done(ws, r) =>
            var out := Execution(rs, ws, r);
            assert WorkerStep(b, s, w, sh.(lastReads := sh.lastReads[i := rs], history := sh.history[(i, inc) := out]),
              Exec(i, inc, Record(out, sh.lastWrites[i] - ws.Keys, ws.Keys, false)));
        }
    }
  }

  /** `record` always has a next location, as long as what is left to write is in the write set. */
  lemma RecordEnabled(b: Block, s: State, w: nat)
    requires Sizes(b, s) && w < |s.ws| && s.ws[w].Exec? && s.ws[w].exec.Record? && Fits(s.sh, s.ws[w])
    requires s.ws[w].exec.todo <= s.ws[w].exec.out.writeSet.Keys
    ensures Enabled(b, s, w)
  {
    var sh, i, inc, e := s.sh, s.ws[w].tx, s.ws[w].inc, s.ws[w].exec;
    if e.stale != {} {
      var l :| l in e.stale;
      assert WorkerStep(b, s, w, ForgetAt(sh, i, l), Exec(i, inc, Record(e.out, e.stale - {l}, e.todo, e.wroteNew)));
    } else if e.todo != {} {
      var l :| l in e.todo;
      assert WorkerStep(b, s, w, WriteAt(sh, i, l, Data(inc, e.out.writeSet[l])),
        Exec(i, inc, Record(e.out, e.stale, e.todo - {l}, e.wroteNew || l !in sh.lastWrites[i])));
    } else {
      assert WorkerStep(b, s, w, sh, Exec(i, inc, Save(e.out.result, e.wroteNew)));
    }
  }

  /** The phases that hold the status lock wait for nothing but the lock of a higher transaction. */
  lemma HolderEnabled(b: Block, s: State, w: nat)
    requires Sizes(b, s) && w < |s.ws| && Fits(s.sh, s.ws[w]) && s.ws[w].Exec? && HoldsStatus(s.ws[w], s.ws[w].tx)
    requires s.ws[w].exec.Resume? && s.ws[w].exec.rest != [] ==> StatusFree(s, s.ws[w].exec.rest[0])
    ensures Enabled(b, s, w)
  {
    var sh, i, inc := s.sh, s.ws[w].tx, s.ws[w].inc;
    match s.ws[w].exec
    case Resume(rest, wroteNew) =>
      if rest == [] {
        assert WorkerStep(b, s, w, sh, Exec(i, inc, LowerMinValidation(wroteNew)));
      } else {
        assert rest[0] in rest;
        assert WorkerStep(b, s, w, SetReady(sh, rest[0]), Exec(i, inc, LowerExecution(rest[0], rest[1..], wroteNew)));
      }
    case LowerExecution(d, rest, wroteNew) =>
      assert WorkerStep(b, s, w, sh.(executionIdx := Min(sh.executionIdx, d)), Exec(i, inc, Resume(rest, wroteNew)));
    case LowerMinValidation(wroteNew) =>
      assert WorkerStep(b, s, w, sh.(minValidationIdx := Min(sh.minValidationIdx, i)),
        Exec(i, inc, CompareValidation(wroteNew)));
    case CompareValidation(wroteNew) =>
      assert WorkerStep(b, s, w, sh, Exec(i, inc,
        if i < sh.validationIdx then (if wroteNew then LowerValidation else Mark(true)) else Mark(false)));
    case LowerValidation =>
      assert WorkerStep(b, s, w, sh.(validationIdx := Min(sh.validationIdx, i + 1)), Exec(i, inc, Mark(true)));
    case Mark(again) =>
      assert WorkerStep(b, s, w, SetStatus(sh, i, Executed), if again then Valid(i, Start) else Seek(Begin));
  }

  lemma FinishEnabled(b: Block, s: State, w: nat)
    requires Sizes(b, s) && w < |s.ws| && Fits(s.sh, s.ws[w]) && s.ws[w].Exec?
    requires s.ws[w].exec.Blocked? || s.ws[w].exec.Save? || s.ws[w].exec.Lock?
    requires forall i: nat :: StatusFree(s, i)
    ensures Enabled(b, s, w)
  {
    var sh, i, inc := s.sh, s.ws[w].tx, s.ws[w].inc;
    match s.ws[w].exec
    case Blocked(j) =>
      if Finished(sh.status[j]) {
        assert WorkerStep(b, s, w, sh, Exec(i, inc, Run([], map[])));
      } else {
        assert WorkerStep(b, s, w, SetStatus(sh, i, Aborting).(dependents :=
          sh.dependents[j := sh.dependents[j] + [i]]), Seek(Begin));
      }
    case Save(r, wroteNew) =>
      assert WorkerStep(b, s, w, sh.(results := sh.results[i := Some(r)]), Exec(i, inc, Lock(wroteNew)));
    case Lock(wroteNew) =>
      assert WorkerStep(b, s, w, sh.(dependents := sh.dependents[i := []]),
      Exec(i, inc, Resume(sh.dependents[i], wroteNew)));
  }

  /** Checking and estimating hold the locations lock and never wait. */
  lemma LocationHolderEnabled(b: Block, s: State, w: nat)
    requires Sizes(b, s) && w < |s.ws| && Fits(s.sh, s.ws[w]) && s.ws[w].Valid? && CheckFits(s.sh, s.ws[w])
    requires s.ws[w].val.Check? || s.ws[w].val.Estimating?
    ensures Enabled(b, s, w)
  {
    var sh, i := s.sh, s.ws[w].tx;
    match s.ws[w].val
    case Check(left) =>
      if left == {} {
        assert WorkerStep(b, s, w, sh, Valid(i, Confirm));
      } else {
        var l :| l in left;
        assert WorkerStep(b, s, w, sh, Valid(i, CheckAt(sh, i, left, l)));
      }
    case Estimating(left) =>
      if left == {} {
        assert WorkerStep(b, s, w, sh, Valid(i, MakeReady));
      } else {
        var l :| l in left;
        assert WorkerStep(b, s, w, EstimateAt(sh, i, l), Valid(i, Estimating(left - {l})));
      }
  }

  lemma ValEnabled(b: Block, s: State, w: nat)
    requires Sizes(b, s) && w < |s.ws| && Fits(s.sh, s.ws[w]) && s.ws[w].Valid? && !s.ws[w].val.Check?
      && !s.ws[w].val.Estimating?
    requires forall i: nat :: StatusFree(s, i) && LocationsFree(s, i)
    requires s.sh.status[s.ws[w].tx].status.Validated? ==> s.sh.numValidated >= 1
    ensures Enabled(b, s, w)
  {
    var sh, i := s.sh, s.ws[w].tx;
    match s.ws[w].val
    case Start => assert WorkerStep(b, s, w, sh, Valid(i, Check(sh.lastReads[i].Keys)));
    case Refute =>
      if Finished(sh.status[i]) {
        assert WorkerStep(b, s, w, SetStatus(sh, i, Aborting).(numValidated :=
          if sh.status[i].status.Validated? then sh.numValidated - 1 else sh.numValidated), Valid(i, ToEstimates));
      } else {
        assert WorkerStep(b, s, w, sh, Valid(i, Confirm));
      }
    case Confirm =>
      assert WorkerStep(b, s, w, if sh.status[i].status.Executed? then SetStatus(sh, i, Validated).(numValidated :=
        sh.numValidated + 1) else sh, Seek(Begin));
    case ToEstimates => assert WorkerStep(b, s, w, sh, Valid(i, Estimating(sh.lastWrites[i])));
    case MakeReady => assert WorkerStep(b, s, w, SetReady(sh, i), Valid(i, LowerAfterAbort));
    case LowerAfterAbort =>
      assert WorkerStep(b, s, w, sh.(validationIdx := Min(sh.validationIdx, i + 1)), Valid(i, CompareExecution));
    case CompareExecution =>
      assert WorkerStep(b, s, w, sh, if sh.executionIdx > i then Valid(i, Retry) else Seek(Begin));
    case Retry =>
      if sh.status[i].status.ReadyToExecute? {
        assert WorkerStep(b, s, w, SetStatus(sh, i, Executing), StartRun(sh, i));
      } else {
        assert WorkerStep(b, s, w, sh, Seek(Begin));
      }
  }

  // ---------------------------------------------------------------- somebody can move

  /** A worker that holds a status lock, with no holder of a higher one. */
  ghost predicate Highest(s: State, w: nat) {
    && w < |s.ws| && s.ws[w].Exec? && HoldsStatus(s.ws[w], s.ws[w].tx)
    && forall u :: 0 <= u < |s.ws| && s.ws[u].Exec? && HoldsStatus(s.ws[u], s.ws[u].tx) ==> s.ws[u].tx <= s.ws[w].tx
  }

  lemma {:induction false} HighestHolder(s: State, n: nat) returns (w: nat)
    requires n <= |s.ws| && exists u :: 0 <= u < n && s.ws[u].Exec? && HoldsStatus(s.ws[u], s.ws[u].tx)
    ensures w < n && s.ws[w].Exec? && HoldsStatus(s.ws[w], s.ws[w].tx)
    ensures forall u :: 0 <= u < n && s.ws[u].Exec? && HoldsStatus(s.ws[u], s.ws[u].tx) ==> s.ws[u].tx <= s.ws[w].tx
  {
    if exists u :: 0 <= u < n - 1 && s.ws[u].Exec? && HoldsStatus(s.ws[u], s.ws[u].tx) {
      w := HighestHolder(s, n - 1);
      if s.ws[n - 1].Exec? && HoldsStatus(s.ws[n - 1], s.ws[n - 1].tx) && s.ws[n - 1].tx > s.ws[w].tx {
        w := n - 1;
      }
    } else {
      w := n - 1;
    }
  }

  lemma HighestEnabled(b: Block, s: State, w: nat)
    requires Sizes(b, s) && Owned(s) && Highest(s, w)
    ensures Enabled(b, s, w)
  {
    assert Fits(s.sh, s.ws[w]);
    var e := s.ws[w].exec;
    if e.Resume? && e.rest != [] {
      assert e.rest[0] in e.rest;
      forall u | 0 <= u < |s.ws| ensures !HoldsStatus(s.ws[u], e.rest[0]) {
      }
    }
    HolderEnabled(b, s, w);
  }

  lemma FreeEnabled(b: Block, s: State, w: nat)
    requires Sound(b, s) && ChecksRecorded(s) && w < |s.ws| && !s.ws[w].Left?
    requires forall i: nat :: StatusFree(s, i)
    requires (forall i: nat :: LocationsFree(s, i)) || exists i: nat :: HoldsLocations(s.ws[w], i)
    ensures Enabled(b, s, w)
  {
    hide Pending, Exits, OneOwner, SomeOwner, DependentsFit, HistoryOk, TxStored;
    assert Fits(s.sh, s.ws[w]) && Stored(b, s.sh, s.ws[w]) && CheckFits(s.sh, s.ws[w]);
    match s.ws[w] {
      case Seek(_) => SeekEnabled(b, s, w);
      case Exec(i, _, e) =>
        if e.Run? {
          RunEnabled(b, s, w);
        } else if e.Record? {
          RecordEnabled(b, s, w);
        } else {
          assert StatusFree(s, i) && !HoldsStatus(s.ws[w], i);
          FinishEnabled(b, s, w);
        }
      case Valid(i, v) =>
        if v.Check? || v.Estimating? {
          LocationHolderEnabled(b, s, w);
        } else {
          if s.sh.status[i].status.Validated? {
            CountedSome(s, i);
          }
          ValEnabled(b, s, w);
        }
      case Raise => assert WorkerStep(b, s, w, s.sh.(aborted := true), Left);
    }
  }

  lemma CountedSome(s: State, i: nat)
    requires Counted(s) && i < |s.sh.status| && s.sh.status[i].status.Validated?
    ensures s.sh.numValidated >= 1
  {
    CountPositive(s.sh.status, i);
  }

  lemma {:induction false} CountPositive(q: seq<TxStatus>, i: nat)
    requires i < |q| && q[i].status.Validated?
    ensures CountValidated(q) >= 1
  {
    if i < |q| - 1 {
      CountPositive(q[..|q| - 1], i);
    }
  }

  lemma SomeoneEnabled(b: Block, s: State) returns (w: nat)
    requires Sound(b, s) && ChecksRecorded(s) && exists u :: 0 <= u < |s.ws| && !s.ws[u].Left?
    ensures Enabled(b, s, w)
  {
    if exists u :: 0 <= u < |s.ws| && s.ws[u].Exec? && HoldsStatus(s.ws[u], s.ws[u].tx) {
      w := HighestHolder(s, |s.ws|);
      HighestEnabled(b, s, w);
    } else {
      forall i: nat ensures StatusFree(s, i) {
      }
      if u, i: nat :| 0 <= u < |s.ws| && HoldsLocations(s.ws[u], i) {
        w := u;
      } else {
        w :| 0 <= w < |s.ws| && !s.ws[w].Left?;
      }
      FreeEnabled(b, s, w);
    }
  }

  /** In every state of every run, aborted or not, some worker can take a step until all have left. */
  lemma NeverStuck(b: Block, run: seq<State>, movers: seq<nat>, k: nat)
    requires IsRun(b, run, movers) && WritesEstimates(b) && k < |run|
    requires exists u :: 0 <= u < |run[k].ws| && !run[k].ws[u].Left?
    ensures exists w: nat, s' :: StepBy(b, run[k], w, s')
  {
    hide Sound, ChecksRecorded, WorkerStep;
    var s := run[k];
    RunInv(b, run, movers, k);
    RunChecks(b, run, movers, k);
    if s.sh.aborted {
      var u: nat :| 0 <= u < |s.ws| && !s.ws[u].Left?;
      assert StepBy(b, s, u, State(s.sh, s.ws[u := Left]));
    } else if u: nat :| 0 <= u < |s.ws| && s.ws[u].Raise? {
      RaiseMoves(b, s, u);
    } else {
      var w := SomeoneEnabled(b, s);
      EnabledMoves(b, s, w);
    }
  }

  ghost predicate HoldsSomeStatus(w: Worker) {
    exists i: nat :: HoldsStatus(w, i)
  }

  ghost predicate HoldsSomeLocations(w: Worker) {
    exists i: nat :: HoldsLocations(w, i)
  }

  /** A holder of last locations waits for nothing. */
  lemma LocationsMove(b: Block, s: State, w: nat)
    requires Sound(b, s) && ChecksRecorded(s) && w < |s.ws| && HoldsSomeLocations(s.ws[w])
    ensures Enabled(b, s, w)
  {
    hide Pending, Exits, OneOwner, SomeOwner, DependentsFit, HistoryOk, TxStored;
    assert Fits(s.sh, s.ws[w]) && Stored(b, s.sh, s.ws[w]) && CheckFits(s.sh, s.ws[w]);
    if s.ws[w].Exec? {
      RecordEnabled(b, s, w);
    } else {
      LocationHolderEnabled(b, s, w);
    }
  }

  /** While status locks are held, one of their holders can move. */
  lemma StatusMoves(b: Block, s: State, u: nat) returns (w: nat)
    requires Sound(b, s) && u < |s.ws| && HoldsSomeStatus(s.ws[u])
    ensures w < |s.ws| && HoldsSomeStatus(s.ws[w]) && Enabled(b, s, w)
  {
    assert HoldsStatus(s.ws[u], s.ws[u].tx);
    w := HighestHolder(s, |s.ws|);
    HighestEnabled(b, s, w);
    assert HoldsStatus(s.ws[w], s.ws[w].tx);
  }

  /** There is no deadlock, whatever the other workers do: in every state of a run that nobody has aborted, a worker
      that cannot move waits while another one holds a lock; every holder of last locations can move, and while status
      locks are held one of their holders can. */
  lemma HoldersMove(b: Block, run: seq<State>, movers: seq<nat>, k: nat, u: nat)
    requires IsRun(b, run, movers) && WritesEstimates(b) && k < |run| && !Doomed(run[k])
    requires u < |run[k].ws| && !run[k].ws[u].Left?
    ensures HoldsSomeLocations(run[k].ws[u]) ==> Enabled(b, run[k], u)
    ensures HoldsSomeStatus(run[k].ws[u]) ==>
      exists w: nat :: w < |run[k].ws| && HoldsSomeStatus(run[k].ws[w]) && Enabled(b, run[k], w)
    ensures Enabled(b, run[k], u)
      || exists w: nat ::
         w < |run[k].ws| && w != u && (HoldsSomeStatus(run[k].ws[w]) || HoldsSomeLocations(run[k].ws[w]))
  {
    hide Sound, ChecksRecorded, WorkerStep;
    var s := run[k];
    RunInv(b, run, movers, k);
    RunChecks(b, run, movers, k);
    if HoldsSomeLocations(s.ws[u]) {
      LocationsMove(b, s, u);
    } else if HoldsSomeStatus(s.ws[u]) {
      var w := StatusMoves(b, s, u);
    } else if forall w: nat :: w < |s.ws| ==> !HoldsSomeStatus(s.ws[w]) && !HoldsSomeLocations(s.ws[w]) {
      AllFree(s);
      FreeEnabled(b, s, u);
    }
  }

  lemma AllFree(s: State)
    requires forall w: nat :: w < |s.ws| ==> !HoldsSomeStatus(s.ws[w]) && !HoldsSomeLocations(s.ws[w])
    ensures forall i: nat :: StatusFree(s, i) && LocationsFree(s, i)
  {
    forall i: nat ensures StatusFree(s, i) && LocationsFree(s, i) {
      forall w: nat | w < |s.ws| ensures !HoldsStatus(s.ws[w], i) && !HoldsLocations(s.ws[w], i) {
        assert !HoldsSomeStatus(s.ws[w]);
      }
    }
  }

  lemma RaiseMoves(b: Block, s: State, w: nat)
    requires w < |s.ws| && s.ws[w].Raise?
    ensures exists s' :: StepBy(b, s, w, s')
  {
    assert StepBy(b, s, w, State(s.sh.(aborted := true), s.ws[w := Left]));
  }

  lemma EnabledMoves(b: Block, s: State, w: nat)
    requires Enabled(b, s, w)
    ensures exists s' :: StepBy(b, s, w, s')
  {
    var sh', w' :| WorkerStep(b, s, w, sh', w');
    assert StepBy(b, s, w, State(sh', s.ws[w := w']));
  }
}
