/** No run of tame transactions runs into a dead end: from every state that any number of workers can reach,
    some continuation ends with every worker gone and every transaction validated. */
module AlwaysCompletes {
  import opened Collections
  import opened MemoryModel
  import opened TransactionProgram
  import opened Protocol
  import opened Ownership
  import opened Completion
  import opened SerialExecution
  import opened Serializability
  import opened Progress
  import opened Aborts
  import opened LoneWorker
  import opened Rounds

  // ---------------------------------------------------------------- continuing a run

  ghost function Last(run: seq<State>): State
    requires run != []
  {
    run[|run| - 1]
  }

  /** A run with everything that is known of its last state. */
  ghost predicate Going(b: Block, run: seq<State>, movers: seq<nat>) {
    IsRun(b, run, movers) && WritesEstimates(b) && Tame(b)
  }

  ghost predicate Healthy(b: Block, s: State) {
    Sound(b, s) && ChecksRecorded(s) && NoneDestroyed(s) && !Doomed(s)
  }

  lemma RunIsHealthy(b: Block, run: seq<State>, movers: seq<nat>)
    requires Going(b, run, movers)
    ensures Healthy(b, Last(run))
  {
    hide Tame, WritesEstimates, Harmless;
    TameIsHarmless(b);
    NeverAborted(b, run, movers, |run| - 1);
    RunMildly(b, run, movers, |run| - 1);
    RunChecks(b, run, movers, |run| - 1);
    RunInv(b, run, movers, |run| - 1);
  }

  /** `run'` goes on from `run`, and only worker `w` has moved. */
  ghost predicate Continues(b: Block, run: seq<State>, run': seq<State>, movers': seq<nat>, w: nat)
    requires run != []
  {
    && Going(b, run', movers') && run <= run'
    && w < |Last(run).ws| == |Last(run').ws|
    && forall u :: 0 <= u < |Last(run).ws| && u != w ==> Last(run').ws[u] == Last(run).ws[u]
  }

  lemma ContinuesNot(b: Block, run: seq<State>, movers: seq<nat>, w: nat)
    requires Going(b, run, movers) && w < |Last(run).ws|
    ensures Continues(b, run, run, movers, w)
  {
  }

  lemma Longer(b: Block, run: seq<State>, movers: seq<nat>, w: nat, s': State)
    requires Going(b, run, movers) && StepBy(b, Last(run), w, s')
    ensures Continues(b, run, run + [s'], movers + [w], w)
  {
    var run', movers' := run + [s'], movers + [w];
    assert OneMoves(Last(run), w, s') by {
      hide WorkerStep;
    }
    hide StepBy, Init, Tame, WritesEstimates;
    forall k | 0 <= k < |movers'| ensures StepBy(b, run'[k], movers'[k], run'[k + 1]) {
      assert k < |movers| ==> run'[k] == run[k] && run'[k + 1] == run[k + 1] && movers'[k] == movers[k];
    }
    assert run'[0] == run[0] && Last(run') == s';
  }

  ghost predicate OneMoves(s: State, w: nat, s': State) {
    w < |s.ws| == |s'.ws| && forall u :: 0 <= u < |s.ws| && u != w ==> s'.ws[u] == s.ws[u]
  }

  lemma ContinuesOn(b: Block, run: seq<State>, run1: seq<State>, movers1: seq<nat>, run2: seq<State>,
                    movers2: seq<nat>, w: nat)
    requires run != [] && Continues(b, run, run1, movers1, w) && Continues(b, run1, run2, movers2, w)
    ensures Continues(b, run, run2, movers2, w)
  {
    hide Going;
  }

  // ---------------------------------------------------------------- a lone worker can move and stays lone

  lemma LoneMoves(b: Block, s: State, w: nat) returns (s': State)
    requires Healthy(b, s) && Lone(s, w) && !s.ws[w].Left?
    ensures StepBy(b, s, w, s')
  {
    LoneEnabled(b, s, w);
    hide Healthy, Lone, WorkerStep;
    var sh', w' :| WorkerStep(b, s, w, sh', w');
    s' := State(sh', s.ws[w := w']);
  }

  lemma LoneEnabled(b: Block, s: State, w: nat)
    requires Healthy(b, s) && Lone(s, w) && !s.ws[w].Left?
    ensures Enabled(b, s, w)
  {
    hide Sound, ChecksRecorded, WorkerStep, NoneDestroyed, Doomed;
    if !Locked(s.ws[w]) {
      LoneIsFree(s, w);
      hide Lone;
      FreeEnabled(b, s, w);
    } else if s.ws[w].Exec? && HoldsStatus(s.ws[w], s.ws[w].tx) {
      LoneIsHighest(s, w);
      hide Lone;
      HighestMoves(b, s, w);
    } else {
      assert HoldsLocations(s.ws[w], s.ws[w].tx) && HoldsSomeLocations(s.ws[w]);
      hide Lone;
      LocationsMove(b, s, w);
    }
  }

  lemma HighestMoves(b: Block, s: State, w: nat)
    requires Sound(b, s) && Highest(s, w)
    ensures Enabled(b, s, w)
  {
    hide Owned;
    HighestEnabled(b, s, w);
  }

  lemma LoneIsHighest(s: State, w: nat)
    requires Lone(s, w) && s.ws[w].Exec? && HoldsStatus(s.ws[w], s.ws[w].tx)
    ensures Highest(s, w)
  {
  }

  lemma LoneIsFree(s: State, w: nat)
    requires Lone(s, w) && !Locked(s.ws[w])
    ensures forall i: nat :: StatusFree(s, i) && LocationsFree(s, i)
  {
    forall i: nat ensures StatusFree(s, i) && LocationsFree(s, i) {
      forall u | 0 <= u < |s.ws| ensures !HoldsStatus(s.ws[u], i) && !HoldsLocations(s.ws[u], i) {
        assert !Locked(s.ws[u]);
      }
    }
  }

  lemma SeekHolds(s: State, w: nat, sh': Shared, w': Worker)
    requires w < |s.ws| && s.ws[w].Seek? && SeekStep(s, w, sh', w') && Holds(s.ws[w]) && Holds(w')
    ensures Held(w') == Held(s.ws[w])
  {
  }

  lemma ExecHolds(b: Block, s: State, w: nat, sh': Shared, w': Worker)
    requires w < |s.ws| && s.ws[w].Exec? && ExecStep(b, s, w, sh', w') && Holds(w')
    ensures Held(w') == Held(s.ws[w])
  {
    hide Intercept, InterceptedValue;
  }

  lemma ValHolds(s: State, w: nat, sh': Shared, w': Worker)
    requires w < |s.ws| && s.ws[w].Valid? && ValStep(s, w, sh', w') && Holds(w')
    ensures Held(w') == Held(s.ws[w])
  {
  }

  /** A worker that still holds a transaction holds the same one. */
  lemma StepHolds(b: Block, s: State, w: nat, s': State)
    requires StepBy(b, s, w, s') && !s.sh.aborted && Holds(s.ws[w]) && Holds(s'.ws[w])
    ensures Held(s'.ws[w]) == Held(s.ws[w])
  {
    hide SeekStep, ExecStep, ValStep;
    match s.ws[w] {
      case Seek(_) => SeekHolds(s, w, s'.sh, s'.ws[w]);
      case Exec(_, _, _) => ExecHolds(b, s, w, s'.sh, s'.ws[w]);
      case Valid(_, _) => ValHolds(s, w, s'.sh, s'.ws[w]);
    }
  }

  ghost predicate NobodyElse(s: State, w: nat) {
    forall u :: 0 <= u < |s.ws| && u != w ==> !Holds(s.ws[u])
  }

  lemma StaysLone(b: Block, s: State, w: nat, s': State)
    requires Lone(s, w) && StepBy(b, s, w, s') && !s.sh.aborted
    requires Holds(s'.ws[w]) || NobodyElse(s', w)
    ensures Lone(s', w)
  {
    if Holds(s.ws[w]) && Holds(s'.ws[w]) {
      StepHolds(b, s, w, s');
    }
    hide WorkerStep;
    forall u | 0 <= u < |s'.ws| && u != w
      ensures !Locked(s'.ws[u]) && (Holds(s'.ws[u]) ==> Holds(s'.ws[w]) && Held(s'.ws[w]) <= Held(s'.ws[u]))
    {
      assert s'.ws[u] == s.ws[u];
    }
  }

  predicate Parked(w: Worker) {
    w == Seek(Begin) || w.Left?
  }

  /** Let a lone worker run until it is rid of its transaction, and to the start of `next_task` if nobody else holds
      one. */
  lemma LoneRun(b: Block, run: seq<State>, movers: seq<nat>, w: nat) returns (run': seq<State>, movers': seq<nat>)
    requires Going(b, run, movers) && Lone(Last(run), w)
    ensures Continues(b, run, run', movers', w)
    ensures !Holds(Last(run').ws[w]) && (NobodyElse(Last(run'), w) ==> Parked(Last(run').ws[w]))
    decreases Level(b, Last(run).sh, Last(run).ws[w]), Phase(Last(run).ws[w]), LeftOver(b, Last(run).ws[w])
  {
    var s := Last(run);
    if Parked(s.ws[w]) {
      ContinuesNot(b, run, movers, w);
      return run, movers;
    }
    RunIsHealthy(b, run, movers);
    hide Going, IsRun, Lone, StepBy, Level, Phase, LeftOver, Sound, NoneDestroyed, Tame, NobodyElse, Continues;
    var s' := LoneMoves(b, s, w);
    NotRaised(s, w);
    LoneStep(b, run, movers, s, w, s');
    if !Holds(s'.ws[w]) && !NobodyElse(s', w) {
      return run + [s'], movers + [w];
    }
    StaysLone(b, s, w, s');
    run', movers' := LoneRun(b, run + [s'], movers + [w], w);
    ContinuesOn(b, run, run + [s'], movers + [w], run', movers', w);
  }

  lemma NotRaised(s: State, w: nat)
    requires !Doomed(s) && w < |s.ws|
    ensures !s.sh.aborted && !s.ws[w].Raise?
  {
  }

  lemma LoneStep(b: Block, run: seq<State>, movers: seq<nat>, s: State, w: nat, s': State)
    requires Going(b, run, movers) && s == Last(run) && Healthy(b, s) && Lone(s, w) && StepBy(b, s, w, s')
    requires !Parked(s.ws[w]) && !s.ws[w].Raise?
    ensures Continues(b, run, run + [s'], movers + [w], w) && Last(run + [s']) == s' && w < |s'.ws|
    ensures Smaller(b, s'.sh, s'.ws[w], s.sh, s.ws[w])
  {
    Longer(b, run, movers, w, s');
    hide IsRun, StepBy, Level, Lone, WritesEstimates, Sound;
    LoneCounts(b, s, w, s');
  }

  // ---------------------------------------------------------------- releasing locks

  ghost function LockedOf(s: State): set<nat> {
    set u: nat | u < |s.ws| && Locked(s.ws[u])
  }

  /** The worker can get rid of its lock whatever the others hold. */
  ghost predicate Unhindered(s: State, w: nat) {
    w < |s.ws| && Locked(s.ws[w]) && (HoldsSomeLocations(s.ws[w]) || Highest(s, w))
  }

  lemma LockedLess(b: Block, s: State, w: nat, s': State)
    requires Sound(b, s) && StepBy(b, s, w, s') && !s.sh.aborted && Locked(s.ws[w])
    ensures Locked(s'.ws[w]) ==>
      Phase(s'.ws[w]) < Phase(s.ws[w])
        || (Phase(s'.ws[w]) == Phase(s.ws[w]) && LeftOver(b, s'.ws[w]) < LeftOver(b, s.ws[w]))
    ensures Locked(s'.ws[w]) ==> (s'.ws[w].Exec? <==> s.ws[w].Exec?) && s'.ws[w].tx == s.ws[w].tx
    ensures Locked(s'.ws[w]) ==> (HoldsSomeLocations(s.ws[w]) <==> HoldsSomeLocations(s'.ws[w]))
  {
    assert Fits(s.sh, s.ws[w]) by {
      hide SeekStep, ExecStep, ValStep;
    }
    hide SeekStep, ExecStep, ValStep, Sound, Fits;
    match s.ws[w] {
      case Exec(_, _, e) =>
        if e.Record? {
          RecordUnlocks(b, s, w, s'.sh, s'.ws[w]);
        } else if e.Mark? {
          MarkUnlocks(b, s, w, s'.sh, s'.ws[w]);
        } else {
          FinishUnlocks(b, s, w, s'.sh, s'.ws[w]);
        }
      case Valid(_, _) => ValUnlocks(b, s, w, s'.sh, s'.ws[w]);
    }
  }

  lemma RecordUnlocks(b: Block, s: State, w: nat, sh': Shared, w': Worker)
    requires w < |s.ws| && s.ws[w].Exec? && s.ws[w].exec.Record? && ExecStep(b, s, w, sh', w')
    ensures w'.Exec? && w'.tx == s.ws[w].tx && (w'.exec.Save? || (w'.exec.Record? && HoldsSomeLocations(w')
      && LeftOver(b, w') < LeftOver(b, s.ws[w])))
    ensures HoldsSomeLocations(s.ws[w])
  {
    hide ExecStep, ForgetAt, WriteAt;
    RecordStep(b, s, w, sh', w');
    assert HoldsLocations(s.ws[w], s.ws[w].tx);
    if w'.exec.Record? {
      assert HoldsLocations(w', w'.tx);
    }
  }

  lemma MarkUnlocks(b: Block, s: State, w: nat, sh': Shared, w': Worker)
    requires w < |s.ws| && s.ws[w].Exec? && s.ws[w].exec.Mark? && ExecStep(b, s, w, sh', w')
    ensures !Locked(w')
  {
    hide RunStep;
  }

  lemma FinishUnlocks(b: Block, s: State, w: nat, sh': Shared, w': Worker)
    requires w < |s.ws| && s.ws[w].Exec? && HoldsStatus(s.ws[w], s.ws[w].tx) && !s.ws[w].exec.Mark?
      && ExecStep(b, s, w, sh', w') && Fits(s.sh, s.ws[w])
    ensures w'.Exec? && w'.tx == s.ws[w].tx && !HoldsSomeLocations(w') && !HoldsSomeLocations(s.ws[w])
    ensures Phase(w') < Phase(s.ws[w]) || (Phase(w') == Phase(s.ws[w]) && LeftOver(b, w') < LeftOver(b, s.ws[w]))
  {
    FinishFacts(b, s, w, sh', w');
    hide RunStep, Fits, Phase, LeftOver, StatusFree;
  }

  lemma ValUnlocks(b: Block, s: State, w: nat, sh': Shared, w': Worker)
    requires w < |s.ws| && s.ws[w].Valid? && Locked(s.ws[w]) && ValStep(s, w, sh', w')
    ensures w'.Valid? && w'.tx == s.ws[w].tx && HoldsSomeLocations(s.ws[w])
    ensures Locked(w') ==>
      HoldsSomeLocations(w') && Phase(w') == Phase(s.ws[w]) && LeftOver(b, w') < LeftOver(b, s.ws[w])
  {
    assert HoldsLocations(s.ws[w], s.ws[w].tx);
    if Locked(w') {
      assert HoldsLocations(w', w'.tx);
    }
  }

  lemma StaysUnhindered(b: Block, s: State, w: nat, s': State)
    requires Sound(b, s) && StepBy(b, s, w, s') && !s.sh.aborted && Unhindered(s, w) && Locked(s'.ws[w])
    ensures Unhindered(s', w)
  {
    LockedLess(b, s, w, s');
    hide Sound, WorkerStep;
    if !HoldsSomeLocations(s.ws[w]) {
      assert Highest(s, w);
      NotRecording(s'.ws[w]);
      forall u | 0 <= u < |s'.ws| && s'.ws[u].Exec? && HoldsStatus(s'.ws[u], s'.ws[u].tx)
        ensures s'.ws[u].tx <= s'.ws[w].tx
      {
        assert u != w ==> s'.ws[u] == s.ws[u];
      }
    }
  }

  lemma NotRecording(w: Worker)
    requires Locked(w) && !HoldsSomeLocations(w)
    ensures w.Exec? && HoldsStatus(w, w.tx)
  {
    if !(w.Exec? && HoldsStatus(w, w.tx)) {
      assert HoldsLocations(w, w.tx);
    }
  }

  /** Let an unhindered worker run until it has released its lock. */
  lemma LockRun(b: Block, run: seq<State>, movers: seq<nat>, w: nat) returns (run': seq<State>, movers': seq<nat>)
    requires Going(b, run, movers) && Unhindered(Last(run), w)
    ensures Continues(b, run, run', movers', w) && !Locked(Last(run').ws[w])
    decreases Phase(Last(run).ws[w]), LeftOver(b, Last(run).ws[w])
  {
    var s := Last(run);
    RunIsHealthy(b, run, movers);
    hide Going, IsRun, StepBy, Phase, LeftOver, Sound, NoneDestroyed, Tame, Continues, ChecksRecorded, Unhindered;
    var s' := UnhinderedMoves(b, s, w);
    NotRaised(s, w);
    LockedLess(b, s, w, s');
    Longer(b, run, movers, w, s');
    LastOf(run, s');
    ContinuesHas(b, run, run + [s'], movers + [w], w);
    if !Locked(s'.ws[w]) {
      return run + [s'], movers + [w];
    }
    StaysUnhindered(b, s, w, s');
    run', movers' := LockRun(b, run + [s'], movers + [w], w);
    ContinuesOn(b, run, run + [s'], movers + [w], run', movers', w);
  }

  lemma LastOf(run: seq<State>, s': State)
    ensures Last(run + [s']) == s'
  {
  }

  lemma ContinuesHas(b: Block, run: seq<State>, run': seq<State>, movers': seq<nat>, w: nat)
    requires run != [] && Continues(b, run, run', movers', w)
    ensures Going(b, run', movers') && run' != [] && w < |Last(run').ws| == |Last(run).ws|
    ensures forall u :: 0 <= u < |Last(run).ws| && u != w ==> Last(run').ws[u] == Last(run).ws[u]
  {
  }

  lemma UnhinderedMoves(b: Block, s: State, w: nat) returns (s': State)
    requires Healthy(b, s) && Unhindered(s, w)
    ensures StepBy(b, s, w, s')
  {
    hide Sound, ChecksRecorded, NoneDestroyed, Doomed, WorkerStep;
    if HoldsSomeLocations(s.ws[w]) {
      LocationsMove(b, s, w);
    } else {
      HighestMoves(b, s, w);
    }
    var sh', w' :| WorkerStep(b, s, w, sh', w');
    s' := State(sh', s.ws[w := w']);
  }

  lemma SomeUnhindered(s: State) returns (w: nat)
    requires LockedOf(s) != {}
    ensures Unhindered(s, w)
  {
    var u :| u in LockedOf(s);
    if v :| v in LockedOf(s) && HoldsSomeLocations(s.ws[v]) {
      w := v;
    } else {
      NotRecording(s.ws[u]);
      w := HighestHolder(s, |s.ws|);
    }
  }

  /** Let all locks be released. */
  lemma Unlock(b: Block, run: seq<State>, movers: seq<nat>) returns (run': seq<State>, movers': seq<nat>)
    requires Going(b, run, movers)
    ensures Going(b, run', movers') && run <= run' && LockedOf(Last(run')) == {}
    decreases LockedOf(Last(run))
  {
    if LockedOf(Last(run)) == {} {
      return run, movers;
    }
    hide Going, Unhindered, Locked;
    var w := SomeUnhindered(Last(run));
    UnhinderedIsLocked(Last(run), w);
    var run1, movers1 := LockRun(b, run, movers, w);
    ContinuesHas(b, run, run1, movers1, w);
    assert w in LockedOf(Last(run)) && LockedOf(Last(run1)) == LockedOf(Last(run)) - {w};
    run', movers' := Unlock(b, run1, movers1);
  }

  lemma UnhinderedIsLocked(s: State, w: nat)
    requires Unhindered(s, w)
    ensures w < |s.ws| && Locked(s.ws[w])
  {
  }

  // ---------------------------------------------------------------- finishing tasks

  ghost function HoldersOf(s: State): set<nat> {
    set u: nat | u < |s.ws| && Holds(s.ws[u])
  }

  ghost function UnparkedOf(s: State): set<nat> {
    set u: nat | u < |s.ws| && !Parked(s.ws[u])
  }

  lemma {:induction false} LowestHolder(s: State, n: nat) returns (w: nat)
    requires n <= |s.ws| && exists u :: 0 <= u < n && Holds(s.ws[u])
    ensures w < n && Holds(s.ws[w])
    ensures forall u :: 0 <= u < n && Holds(s.ws[u]) ==> Held(s.ws[w]) <= Held(s.ws[u])
  {
    if exists u :: 0 <= u < n - 1 && Holds(s.ws[u]) {
      w := LowestHolder(s, n - 1);
      if Holds(s.ws[n - 1]) && Held(s.ws[n - 1]) < Held(s.ws[w]) {
        w := n - 1;
      }
    } else {
      w := n - 1;
    }
  }

  lemma LowestIsLone(s: State) returns (w: nat)
    requires LockedOf(s) == {} && HoldersOf(s) != {}
    ensures w in HoldersOf(s) && Lone(s, w)
  {
    var v :| v in HoldersOf(s);
    w := LowestHolder(s, |s.ws|);
    forall u | 0 <= u < |s.ws| ensures !Locked(s.ws[u]) {
      assert u !in LockedOf(s);
    }
  }

  lemma FreeIsUnlocked(s: State, w: nat)
    requires w < |s.ws| && !Holds(s.ws[w])
    ensures !Locked(s.ws[w])
  {
  }

  /** Let every worker that has a task finish it, from the lowest transaction up. */
  lemma LetGo(b: Block, run: seq<State>, movers: seq<nat>) returns (run': seq<State>, movers': seq<nat>)
    requires Going(b, run, movers) && LockedOf(Last(run)) == {}
    ensures Going(b, run', movers') && run <= run' && HoldersOf(Last(run')) == {}
    decreases HoldersOf(Last(run))
  {
    if HoldersOf(Last(run)) == {} {
      return run, movers;
    }
    hide Going, Locked, Holds, Held, Parked, Lone;
    var w := LowestIsLone(Last(run));
    var run1, movers1 := LoneRun(b, run, movers, w);
    ContinuesHas(b, run, run1, movers1, w);
    FreeIsUnlocked(Last(run1), w);
    assert HoldersOf(Last(run1)) == HoldersOf(Last(run)) - {w};
    assert LockedOf(Last(run1)) == {} by {
      forall u: nat | u < |Last(run1).ws| ensures !Locked(Last(run1).ws[u]) {
        assert u !in LockedOf(Last(run));
      }
    }
    run', movers' := LetGo(b, run1, movers1);
  }

  lemma NobodyIsLone(s: State, w: nat)
    requires HoldersOf(s) == {} && w < |s.ws|
    ensures Lone(s, w) && NobodyElse(s, w)
  {
    forall u: nat | u < |s.ws| ensures !Holds(s.ws[u]) {
      assert u !in HoldersOf(s);
    }
  }

  /** Let every worker come back to the start of `next_task`. */
  lemma Park(b: Block, run: seq<State>, movers: seq<nat>) returns (run': seq<State>, movers': seq<nat>)
    requires Going(b, run, movers) && HoldersOf(Last(run)) == {}
    ensures Going(b, run', movers') && run <= run' && UnparkedOf(Last(run')) == {}
    decreases UnparkedOf(Last(run))
  {
    if UnparkedOf(Last(run)) == {} {
      return run, movers;
    }
    hide Going, Locked, Holds, Held, Parked, Lone;
    var w :| w in UnparkedOf(Last(run));
    NobodyIsLone(Last(run), w);
    var run1, movers1 := LoneRun(b, run, movers, w);
    ContinuesHas(b, run, run1, movers1, w);
    assert HoldersOf(Last(run1)) == {} by {
      forall u: nat | u < |Last(run1).ws| ensures !Holds(Last(run1).ws[u]) {
        assert u !in HoldersOf(Last(run));
      }
    }
    NobodyIsLone(Last(run1), w);
    assert UnparkedOf(Last(run1)) == UnparkedOf(Last(run)) - {w};
    run', movers' := Park(b, run1, movers1);
  }

  // ---------------------------------------------------------------- rounds

  /** A worker that has begun a round ends it, while the others rest. */
  lemma RoundRun(b: Block, run: seq<State>, movers: seq<nat>, w: nat, base: Shared)
      returns (run': seq<State>, movers': seq<nat>)
    requires Going(b, run, movers) && Resting(Last(run), w) && Toward(b, base, Last(run).sh, Last(run).ws[w])
    ensures Continues(b, run, run', movers', w) && Resting(Last(run'), w) && Parked(Last(run').ws[w])
    ensures Toward(b, base, Last(run').sh, Last(run').ws[w])
    decreases Level(b, Last(run).sh, Last(run).ws[w]), Phase(Last(run).ws[w]), LeftOver(b, Last(run).ws[w])
  {
    var s := Last(run);
    if Parked(s.ws[w]) {
      ContinuesNot(b, run, movers, w);
      return run, movers;
    }
    RunIsHealthy(b, run, movers);
    RestingIsLone(s, w);
    GoingIsTame(b, run, movers);
    hide Going, IsRun, Lone, StepBy, Level, Phase, LeftOver, Sound, NoneDestroyed, Tame, Continues, Toward, Resting;
    var s' := LoneMoves(b, s, w);
    NotRaised(s, w);
    LoneStep(b, run, movers, s, w, s');
    ContinuesHas(b, run, run + [s'], movers + [w], w);
    RoundStep(b, base, s, w, s');
    run', movers' := RoundRun(b, run + [s'], movers + [w], w, base);
    ContinuesOn(b, run, run + [s'], movers + [w], run', movers', w);
  }

  lemma GoingIsTame(b: Block, run: seq<State>, movers: seq<nat>)
    requires Going(b, run, movers)
    ensures Tame(b)
  {
  }

  /** One step of a resting worker into `next_task`. */
  lemma Enters(b: Block, run: seq<State>, movers: seq<nat>, w: nat) returns (s': State)
    requires Going(b, run, movers) && w < |Last(run).ws| && Last(run).ws[w] == Seek(Begin)
    ensures StepBy(b, Last(run), w, s') && s'.sh == Last(run).sh && s'.ws == Last(run).ws[w := Seek(LoadExecution)]
  {
    RunIsHealthy(b, run, movers);
    NotRaised(Last(run), w);
    hide Going, Healthy;
    s' := State(Last(run).sh, Last(run).ws[w := Seek(LoadExecution)]);
    assert WorkerStep(b, Last(run), w, s'.sh, s'.ws[w]);
  }

  /** Let one worker do rounds until nothing is left to do. */
  lemma DoRounds(b: Block, run: seq<State>, movers: seq<nat>, w: nat) returns (run': seq<State>, movers': seq<nat>)
    requires Going(b, run, movers) && Resting(Last(run), w) && Last(run).ws[w] == Seek(Begin)
    ensures Continues(b, run, run', movers', w) && Last(run').ws[w].Left? && AllDone(Last(run').sh)
    decreases Weight(Ranks(Last(run).sh)), Ahead(Last(run).sh)
  {
    var s, base := Last(run), Last(run).sh;
    var s' := Enters(b, run, movers, w);
    Longer(b, run, movers, w, s');
    LastOf(run, s');
    ContinuesHas(b, run, run + [s'], movers + [w], w);
    assert Resting(s', w) && Toward(b, base, s'.sh, s'.ws[w]);
    hide Going, Continues, Better, Ranks, Weight, Ahead, AllDone;
    var run1, movers1 := RoundRun(b, run + [s'], movers + [w], w, base);
    ContinuesOn(b, run, run + [s'], movers + [w], run1, movers1, w);
    if Last(run1).ws[w].Left? {
      return run1, movers1;
    }
    BetterWeighsLess(base, Last(run1).sh);
    ContinuesHas(b, run + [s'], run1, movers1, w);
    run', movers' := DoRounds(b, run1, movers1, w);
    ContinuesOn(b, run, run1, movers1, run', movers', w);
  }

  // ---------------------------------------------------------------- leaving

  ghost function StayersOf(s: State): set<nat> {
    set u: nat | u < |s.ws| && !s.ws[u].Left?
  }

  /** `run'` goes on from `run`, worker `w` has moved to `to`, and nothing else has changed. */
  ghost predicate MovesTo(b: Block, run: seq<State>, run': seq<State>, movers': seq<nat>, w: nat, to: Worker)
    requires run != []
  {
    && Going(b, run', movers') && run <= run' && w < |Last(run).ws|
    && Last(run') == State(Last(run).sh, Last(run).ws[w := to])
  }

  lemma MoveOn(b: Block, run: seq<State>, run1: seq<State>, movers1: seq<nat>, w: nat, at: Worker, to: Worker)
      returns (run': seq<State>, movers': seq<nat>)
    requires run != [] && MovesTo(b, run, run1, movers1, w, at) && WorkerStep(b, Last(run1), w, Last(run1).sh, to)
    ensures MovesTo(b, run, run', movers', w, to)
  {
    var s' := State(Last(run1).sh, Last(run1).ws[w := to]);
    assert StepBy(b, Last(run1), w, s') by {
      hide WorkerStep;
    }
    hide Going, StepBy;
    Longer(b, run1, movers1, w, s');
    LastOf(run1, s');
    ContinuesHas(b, run1, run1 + [s'], movers1 + [w], w);
    run', movers' := run1 + [s'], movers1 + [w];
  }

  predicate Loads(sh: Shared, p: SeekPhase, to: Worker) {
    match p
    case Begin => !sh.aborted && to == Seek(LoadExecution)
    case LoadExecution => to == Seek(LoadValidation(sh.executionIdx))
    case LoadValidation(e) => e >= |sh.status| && sh.validationIdx >= |sh.status| && to == Seek(LoadNumValidated)
    case LoadNumValidated => to == Seek(LoadMinValidation(sh.numValidated))
    case LoadMinValidation(num) => num >= |sh.status| && to == Left
    case _ => false
  }

  lemma SeekOn(b: Block, run: seq<State>, run1: seq<State>, movers1: seq<nat>, w: nat, p: SeekPhase, to: Worker)
      returns (run': seq<State>, movers': seq<nat>)
    requires run != [] && MovesTo(b, run, run1, movers1, w, Seek(p)) && Loads(Last(run).sh, p, to)
    ensures MovesTo(b, run, run', movers', w, to)
  {
    hide Going;
    assert WorkerStep(b, Last(run1), w, Last(run1).sh, to);
    hide WorkerStep;
    run', movers' := MoveOn(b, run, run1, movers1, w, Seek(p), to);
  }

  /** When everything is done, a worker that asks for a task leaves. */
  lemma Leave(b: Block, run: seq<State>, movers: seq<nat>, w: nat) returns (run': seq<State>, movers': seq<nat>)
    requires Going(b, run, movers) && AllDone(Last(run).sh) && w < |Last(run).ws| && Last(run).ws[w] == Seek(Begin)
    ensures MovesTo(b, run, run', movers', w, Left)
  {
    var sh := Last(run).sh;
    RunIsHealthy(b, run, movers);
    NotRaised(Last(run), w);
    assert Last(run).ws[w := Seek(Begin)] == Last(run).ws;
    hide Going, Healthy, Sound;
    var e, num := sh.executionIdx, sh.numValidated;
    run', movers' := SeekOn(b, run, run, movers, w, Begin, Seek(LoadExecution));
    run', movers' := SeekOn(b, run, run', movers', w, LoadExecution, Seek(LoadValidation(e)));
    run', movers' := SeekOn(b, run, run', movers', w, LoadValidation(e), Seek(LoadNumValidated));
    run', movers' := SeekOn(b, run, run', movers', w, LoadNumValidated, Seek(LoadMinValidation(num)));
    run', movers' := SeekOn(b, run, run', movers', w, LoadMinValidation(num), Left);
  }

  lemma LeaveAll(b: Block, run: seq<State>, movers: seq<nat>) returns (run': seq<State>, movers': seq<nat>)
    requires Going(b, run, movers) && AllDone(Last(run).sh) && UnparkedOf(Last(run)) == {}
    ensures Going(b, run', movers') && run <= run' && StayersOf(Last(run')) == {}
    decreases StayersOf(Last(run))
  {
    if StayersOf(Last(run)) == {} {
      return run, movers;
    }
    hide Going, AllDone;
    var w :| w in StayersOf(Last(run));
    assert w !in UnparkedOf(Last(run));
    var run1, movers1 := Leave(b, run, movers, w);
    assert StayersOf(Last(run1)) == StayersOf(Last(run)) - {w};
    assert UnparkedOf(Last(run1)) == {} by {
      forall u: nat | u < |Last(run1).ws| ensures Parked(Last(run1).ws[u]) {
        assert u !in UnparkedOf(Last(run));
      }
    }
    run', movers' := LeaveAll(b, run1, movers1);
  }

  // ---------------------------------------------------------------- every run can be completed

  lemma FromRest(b: Block, run: seq<State>, movers: seq<nat>) returns (run': seq<State>, movers': seq<nat>)
    requires Going(b, run, movers) && UnparkedOf(Last(run)) == {}
    ensures Going(b, run', movers') && run <= run' && StayersOf(Last(run')) == {}
  {
    if StayersOf(Last(run)) == {} {
      return run, movers;
    }
    hide Going;
    var w :| w in StayersOf(Last(run));
    forall u: nat | u < |Last(run).ws| ensures Parked(Last(run).ws[u]) {
      assert u !in UnparkedOf(Last(run));
    }
    var run1, movers1 := DoRounds(b, run, movers, w);
    ContinuesHas(b, run, run1, movers1, w);
    assert UnparkedOf(Last(run1)) == {};
    run', movers' := LeaveAll(b, run1, movers1);
  }

  /** Whatever state the workers have reached, the run can be completed. */
  lemma CanComplete(b: Block, run: seq<State>, movers: seq<nat>) returns (run': seq<State>, movers': seq<nat>)
    requires IsRun(b, run, movers) && WritesEstimates(b) && Tame(b)
    ensures IsRun(b, run', movers') && run <= run' && Completed(run'[|run'| - 1])
  {
    run', movers' := Unlock(b, run, movers);
    run', movers' := LetGo(b, run', movers');
    run', movers' := Park(b, run', movers');
    run', movers' := FromRest(b, run', movers');
    RunIsHealthy(b, run', movers');
    hide Sound, ChecksRecorded, NoneDestroyed, Tame, WritesEstimates, IsRun;
    forall u | 0 <= u < |Last(run').ws| ensures Last(run').ws[u].Left? {
      assert u !in StayersOf(Last(run'));
    }
  }

  /** So every tame block has a completed run, with any number of workers. */
  lemma SomeRunCompletes(b: Block, s: State) returns (run: seq<State>, movers: seq<nat>)
    requires Init(b, s) && WritesEstimates(b) && Tame(b)
    ensures IsRun(b, run, movers) && run[0] == s && Completed(run[|run| - 1])
  {
    run, movers := CanComplete(b, [s], []);
  }

  /** The spent block before anything ran. */
  function SpentStart(): State {
    var ready := TxStatus(0, ReadyToExecute);
    State(Shared([ready, ready, ready], [[], [], []], 0, 3, 3, 0, false, map[], [map[], map[], map[]], [{}, {}, {}],
                 [None, None, None], map[]),
          [Seek(Begin)])
  }

  lemma SpentIsTame()
    ensures Tame(SpentBlock()) && Init(SpentBlock(), SpentStart())
  {
    var b := SpentBlock();
    forall i: nat, h | i < |b.txs| && Next(b.txs[i], h).Finish?
      ensures Next(b.txs[i], h).outcome.Done? && MildWrites(Next(b.txs[i], h).outcome.writeSet)
    {
      assert i == 0 || i == 1 || i == 2;
    }
  }

  /** There is a completed run on the block on which the executor and the sequential execution part. */
  lemma SpentRun() returns (run: seq<State>, movers: seq<nat>)
    ensures IsRun(SpentBlock(), run, movers) && Completed(run[|run| - 1])
    ensures |run[|run| - 1].sh.results| == 3 && run[|run| - 1].sh.results[2] == Some(0)
    ensures SequentialOutcome(SpentBlock(), 2) == Done(map[], 1)
  {
    hide Init, Tame, WritesEstimates, IsRun, Completed, SequentialOutcome;
    SpentIsTame();
    SpentEstimates();
    run, movers := SomeRunCompletes(SpentBlock(), SpentStart());
    SpentBlockDiffers(run, movers);
  }
}
