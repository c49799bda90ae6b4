/** Nothing is lost by `GraphScheduler`: every satisfied transaction gets on the heap, and as long as it has not
    finished it is on the heap, in the hands of a worker, or waits for a lower transaction that has not finished.
    So a scheduler that comes to rest has finished everything. */
module GraphProgress {
  import opened GraphModel
  import opened GraphBuilding
  import opened ListSchedule
  import opened GraphScheduling

  // ---------------------------------------------------------------- where a transaction can be

  /** The worker will execute `c`, is executing it, or will put it on the heap. */
  predicate Carries(w: Worker, c: nat) {
    match w
    case Free => false
    case Holding(t) => t == c
    case Stealing(_) => false
    case Satisfied(t, stolen) => t == c && !stolen
    case Running(t) => t == c
    case Releasing(t, _) => t == c
    case Draining(t, rest) => t == c || c in rest
    case Refuted(t) => t == c
  }

  predicate Executes(w: Worker, c: nat) {
    (w.Running? || w.Releasing? || w.Draining?) && w.tx == c
  }

  ghost predicate InHand(ws: seq<Worker>, c: nat) {
    exists v :: 0 <= v < |ws| && Carries(ws[v], c)
  }

  ghost predicate Waiting(dependents: seq<seq<nat>>, c: nat) {
    exists j :: 0 <= j < |dependents| && c in dependents[j]
  }

  ghost predicate NotLost(s: State, c: nat)
    requires c < |s.status|
  {
    s.status[c].Finished? || c in s.heap || InHand(s.ws, c) || Waiting(s.dependents, c)
  }

  ghost predicate NothingLost(s: State) {
    |s.status| == |s.remaining| && forall c: nat :: c < |s.status| && s.remaining[c] == 0 ==> NotLost(s, c)
  }

  ghost predicate Executed(ws: seq<Worker>, c: nat) {
    exists v :: 0 <= v < |ws| && Executes(ws[v], c)
  }

  /** Somebody executes what is marked so. */
  ghost predicate RunnersOk(s: State) {
    forall c: nat :: c < |s.status| && s.status[c].Executing? ==> Executed(s.ws, c)
  }

  /** One finisher per transaction at a time, and nobody waits for a finished transaction. */
  ghost predicate LocksOk(s: State) {
    && |s.status| == |s.dependents|
    && (forall v, u :: 0 <= v < u < |s.ws| && Locks(s.ws[v]) && Locks(s.ws[u]) ==> s.ws[v].tx != s.ws[u].tx)
    && (forall v :: 0 <= v < |s.ws| ==> DrainOk(s.dependents, s.ws[v]))
    && forall j :: 0 <= j < |s.dependents| ==>
         && (s.dependents[j] != [] ==> !s.status[j].Finished?)
         && forall c :: c in s.dependents[j] ==> j < c < |s.dependents|
  }

  ghost predicate DrainOk(dependents: seq<seq<nat>>, w: Worker) {
    w.Draining? ==>
      && w.tx < |dependents| && dependents[w.tx] == []
      && forall c :: c in w.rest ==> w.tx < c < |dependents|
  }

  /** A finished transaction has released its children, or is about to. */
  ghost predicate FinishedOk(g: Nodes, s: State)
    requires Sizes(g, s)
  {
    && (forall p: nat :: p < |g| && s.status[p].Finished? ==> p in s.finished)
    && (forall v :: 0 <= v < |s.ws| && Locks(s.ws[v]) ==> s.ws[v].tx in s.finished)
    && forall p: nat, c :: p < |g| && p in s.finished && c in g[p].children ==> GaveOrWill(s, p, c)
  }

  ghost predicate GaveOrWill(s: State, p: nat, c: nat) {
    c < |s.gave| && (p in s.gave[c] || exists v :: 0 <= v < |s.ws| && WillRelease(s.ws[v], p, c))
  }

  predicate WillRelease(w: Worker, p: nat, c: nat) {
    w.Releasing? && w.tx == p && c in w.left
  }

  /** Only transactions that have begun an execution are in any other state than ready for the first one. */
  ghost predicate StartedOk(s: State) {
    && (forall c: nat :: c < |s.status| && !s.status[c].Ready? ==> c in s.started)
    && (forall j, c :: 0 <= j < |s.dependents| && c in s.dependents[j] ==> c in s.started)
    && forall v :: 0 <= v < |s.ws| ==> WorkerStarted(s.started, s.ws[v])
  }

  predicate WorkerStarted(started: set<nat>, w: Worker) {
    match w
    case Running(t) => t in started
    case Releasing(t, _) => t in started
    case Draining(t, rest) => t in started && forall c :: c in rest ==> c in started
    case Refuted(t) => t in started
    case _ => true
  }

  ghost predicate Kept(g: Nodes, s: State) {
    Inv(g, s) && NothingLost(s) && RunnersOk(s) && LocksOk(s) && FinishedOk(g, s) && StartedOk(s) && FlagsOk(s)
  }

  lemma InitKept(g: Nodes, s: State)
    requires Linked(g) && Init(g, s)
    ensures Kept(g, s)
  {
    InitInv(g, s);
    forall c: nat | c < |g| && s.remaining[c] == 0 ensures NotLost(s, c) {
      assert s.heap[c] == 1;
    }
  }

  // ---------------------------------------------------------------- every step keeps it

  ghost predicate OneMoved(s: State, w: nat, s': State) {
    w < |s.ws| == |s'.ws| && forall v :: 0 <= v < |s.ws| && v != w ==> s'.ws[v] == s.ws[v]
  }

  /** A step that takes no lock, adds no dependent, and finishes only what nobody waits for. */
  lemma LocksFrame(s: State, w: nat, s': State)
    requires LocksOk(s) && OneMoved(s, w, s') && s'.dependents == s.dependents && |s'.status| == |s.status|
    requires Locks(s'.ws[w]) ==> Locks(s.ws[w]) && s'.ws[w].tx == s.ws[w].tx
    requires s'.ws[w].Draining? ==> s.ws[w].Draining? && forall c :: c in s'.ws[w].rest ==> c in s.ws[w].rest
    requires forall j :: 0 <= j < |s.status| && s'.status[j].Finished? ==>
      s.status[j].Finished? || s.dependents[j] == []
    ensures LocksOk(s')
  {
    forall v | 0 <= v < |s'.ws| ensures DrainOk(s'.dependents, s'.ws[v]) {
      assert DrainOk(s.dependents, s.ws[v]);
    }
  }

  lemma FinishLocks(g: Nodes, s: State, w: nat, i: nat)
    requires Sizes(g, s) && LocksOk(s) && w < |s.ws| && s.ws[w].Running? && i < |g| && StatusFree(s.ws, i)
    ensures LocksOk(Finish(g, s, w, i))
  {
    var s' := Finish(g, s, w, i);
    forall v | 0 <= v < |s'.ws| ensures DrainOk(s'.dependents, s'.ws[v]) {
      assert DrainOk(s.dependents, s.ws[v]);
    }
  }

  lemma WaitsLocks(g: Nodes, s: State, w: nat, i: nat, j: nat)
    requires Sizes(g, s) && LocksOk(s) && w < |s.ws| && s.ws[w].Running? && j < i < |g|
    requires StatusFree(s.ws, j) && !s.status[j].Finished?
    ensures LocksOk(Waits(s, w, i, j))
  {
    var s' := Waits(s, w, i, j);
    forall v | 0 <= v < |s'.ws| ensures DrainOk(s'.dependents, s'.ws[v]) {
      assert DrainOk(s.dependents, s.ws[v]);
    }
  }

  lemma DrainLocks(g: Nodes, s: State, w: nat)
    requires Sizes(g, s) && LocksOk(s) && w < |s.ws| && s.ws[w].Releasing? && s.ws[w].tx < |g|
    ensures var i := s.ws[w].tx;
      LocksOk(Move(s, w, Draining(i, s.dependents[i])).(dependents := s.dependents[i := []]))
  {
    var i := s.ws[w].tx;
    var s' := Move(s, w, Draining(i, s.dependents[i])).(dependents := s.dependents[i := []]);
    forall v | 0 <= v < |s'.ws| ensures DrainOk(s'.dependents, s'.ws[v]) {
      assert DrainOk(s.dependents, s.ws[v]);
    }
  }

  lemma StepLocks(g: Nodes, s: State, w: nat, s': State)
    requires LocksOk(s) && Step(g, s, w, s')
    ensures LocksOk(s')
  {
    hide LocksOk, StatusFree;
    match s.ws[w] {
      case Free => FreeLocks(g, s, w, s');
      case Running(i) =>
        if s' == Finish(g, s, w, i) {
          FinishLocks(g, s, w, i);
        } else {
          var j: nat :| j < i && StatusFree(s.ws, j) && s' == if s.status[j].Finished? then s else Waits(s, w, i, j);
          if !s.status[j].Finished? {
            WaitsLocks(g, s, w, i, j);
          }
        }
      case Releasing(i, left) =>
        if left == [] {
          DrainLocks(g, s, w);
        } else {
          LocksFrame(s, w, s');
        }
      case Draining(i, rest) => DrainingLocks(g, s, w, s');
      case _ => LocksFrame(s, w, s');
    }
  }

  lemma FreeLocks(g: Nodes, s: State, w: nat, s': State)
    requires Sizes(g, s) && LocksOk(s) && w < |s.ws| && s.ws[w].Free? && FreeStep(g, s, w, s')
    ensures LocksOk(s')
  {
    hide LocksOk, StatusFree;
    LocksFrame(s, w, s');
  }

  lemma DrainingLocks(g: Nodes, s: State, w: nat, s': State)
    requires LocksOk(s) && Step(g, s, w, s') && s.ws[w].Draining?
    ensures LocksOk(s')
  {
    assert DrainOk(s.dependents, s.ws[w]);
    hide LocksOk, StatusFree;
    LocksFrame(s, w, s');
  }

  // ---------------------------------------------------------------- runners and starters

  /** Nothing is marked as executing unless the worker executes it, and a worker that stops executing unmarks it. */
  lemma RunnersFrame(s: State, w: nat, s': State)
    requires RunnersOk(s) && OneMoved(s, w, s') && |s'.status| == |s.status|
    requires forall c: nat :: c < |s.status| && s'.status[c].Executing? ==>
      Executes(s'.ws[w], c) || (s.status[c].Executing? && !Executes(s.ws[w], c))
    ensures RunnersOk(s')
  {
    forall c: nat | c < |s'.status| && s'.status[c].Executing? ensures Executed(s'.ws, c) {
      if !Executes(s'.ws[w], c) {
        assert Executed(s.ws, c);
        var v :| 0 <= v < |s.ws| && Executes(s.ws[v], c);
        assert Executes(s'.ws[v], c);
      }
    }
  }

  lemma StepRunners(g: Nodes, s: State, w: nat, s': State)
    requires RunnersOk(s) && Step(g, s, w, s')
    ensures RunnersOk(s')
  {
    hide StatusFree, RunnersOk;
    match s.ws[w] {
      case Free => FreeRunners(g, s, w, s');
      case Running(i) => RunRunners(g, s, w, i, s');
      case _ => RunnersFrame(s, w, s');
    }
  }

  lemma FreeRunners(g: Nodes, s: State, w: nat, s': State)
    requires Sizes(g, s) && RunnersOk(s) && w < |s.ws| && s.ws[w].Free? && FreeStep(g, s, w, s')
    ensures RunnersOk(s')
  {
    hide StatusFree, RunnersOk;
    RunnersFrame(s, w, s');
  }

  lemma RunRunners(g: Nodes, s: State, w: nat, i: nat, s': State)
    requires Sizes(g, s) && RunnersOk(s) && w < |s.ws| && s.ws[w] == Running(i) && i < |g| && RunStep(g, s, w, i, s')
    ensures RunnersOk(s')
  {
    hide StatusFree, RunnersOk;
    RunnersFrame(s, w, s');
  }

  lemma StartedFrame(s: State, w: nat, s': State)
    requires StartedOk(s) && OneMoved(s, w, s') && s.started <= s'.started && WorkerStarted(s'.started, s'.ws[w])
    requires |s'.status| == |s.status| && |s'.dependents| == |s.dependents|
    requires forall c: nat :: c < |s.status| && !s'.status[c].Ready? ==> !s.status[c].Ready? || c in s'.started
    requires forall j, c :: 0 <= j < |s.dependents| && c in s'.dependents[j] ==> c in s.dependents[j] || c in s'.started
    ensures StartedOk(s')
  {
    forall v | 0 <= v < |s'.ws| ensures WorkerStarted(s'.started, s'.ws[v]) {
      assert WorkerStarted(s.started, s.ws[v]);
    }
  }

  lemma StepStarted(g: Nodes, s: State, w: nat, s': State)
    requires StartedOk(s) && Step(g, s, w, s')
    ensures StartedOk(s')
  {
    hide StatusFree;
    assert WorkerStarted(s.started, s.ws[w]);
    match s.ws[w] {
      case Free => FreeStarted(g, s, w, s');
      case Running(i) => RunStarted(g, s, w, i, s');
      case Releasing(i, left) => ReleaseStarted(g, s, w, s');
      case _ => StartedFrame(s, w, s');
    }
  }

  lemma FreeStarted(g: Nodes, s: State, w: nat, s': State)
    requires Sizes(g, s) && StartedOk(s) && w < |s.ws| && FreeStep(g, s, w, s')
    ensures StartedOk(s')
  {
    hide StatusFree;
    StartedFrame(s, w, s');
  }

  lemma RunStarted(g: Nodes, s: State, w: nat, i: nat, s': State)
    requires Sizes(g, s) && StartedOk(s) && w < |s.ws| && s.ws[w] == Running(i) && i < |g| && RunStep(g, s, w, i, s')
    ensures StartedOk(s')
  {
    hide StatusFree;
    assert WorkerStarted(s.started, s.ws[w]);
    StartedFrame(s, w, s');
  }

  lemma ReleaseStarted(g: Nodes, s: State, w: nat, s': State)
    requires StartedOk(s) && Step(g, s, w, s') && s.ws[w].Releasing?
    ensures StartedOk(s')
  {
    assert WorkerStarted(s.started, s.ws[w]);
    StartedFrame(s, w, s');
  }

  // ---------------------------------------------------------------- released children

  /** A step that finishes nothing and keeps every release and every promise of one. */
  lemma FinishedFrame(g: Nodes, s: State, w: nat, s': State)
    requires Sizes(g, s) && Sizes(g, s') && FinishedOk(g, s) && OneMoved(s, w, s') && s'.finished == s.finished
    requires forall p: nat :: p < |g| && s'.status[p].Finished? ==> s.status[p].Finished? || p in s.finished
    requires Locks(s'.ws[w]) ==> Locks(s.ws[w]) && s'.ws[w].tx == s.ws[w].tx
    requires forall c: nat :: c < |g| ==> s.gave[c] <= s'.gave[c]
    requires forall p, c: nat :: c < |g| && WillRelease(s.ws[w], p, c) ==>
      WillRelease(s'.ws[w], p, c) || p in s'.gave[c]
    ensures FinishedOk(g, s')
  {
    forall p: nat, c | p < |g| && p in s'.finished && c in g[p].children ensures GaveOrWill(s', p, c) {
      assert GaveOrWill(s, p, c);
      if p !in s.gave[c] {
        var v :| 0 <= v < |s.ws| && WillRelease(s.ws[v], p, c);
        assert v != w ==> WillRelease(s'.ws[v], p, c);
      }
    }
  }

  lemma FinishFinished(g: Nodes, s: State, w: nat, i: nat)
    requires Linked(g) && Sizes(g, s) && FinishedOk(g, s) && w < |s.ws| && s.ws[w] == Running(i) && i < |g|
    requires s.released[i] ==> i in s.finished
    ensures FinishedOk(g, Finish(g, s, w, i))
  {
    var s' := Finish(g, s, w, i);
    forall p: nat, c | p < |g| && p in s'.finished && c in g[p].children ensures GaveOrWill(s', p, c) {
      if p == i && !s.released[i] {
        assert WillRelease(s'.ws[w], i, c);
      } else {
        assert GaveOrWill(s, p, c);
        if p !in s.gave[c] {
          var v :| 0 <= v < |s.ws| && WillRelease(s.ws[v], p, c);
          assert WillRelease(s'.ws[v], p, c);
        }
      }
    }
  }

  /** Flags are set by those who finish. */
  ghost predicate FlagsOk(s: State) {
    forall i: nat :: i < |s.released| && s.released[i] ==> i in s.finished
  }

  lemma StepFlags(g: Nodes, s: State, w: nat, s': State)
    requires FlagsOk(s) && Step(g, s, w, s')
    ensures FlagsOk(s')
  {
    hide StatusFree;
  }

  lemma StepFinished(g: Nodes, s: State, w: nat, s': State)
    requires Linked(g) && Step(g, s, w, s') && FinishedOk(g, s) && FlagsOk(s) && Sizes(g, s')
    ensures FinishedOk(g, s')
  {
    hide FinishedOk, StatusFree;
    match s.ws[w] {
      case Free => FreeFinished(g, s, w, s');
      case Running(i) =>
        if s' == Finish(g, s, w, i) {
          FinishFinished(g, s, w, i);
        } else {
          RunFinished(g, s, w, i, s');
        }
      case Releasing(i, left) => ReleaseFinished(g, s, w, s');
      case Draining(i, rest) => DrainFinished(g, s, w, s');
      case _ => FinishedFrame(g, s, w, s');
    }
  }

  lemma FreeFinished(g: Nodes, s: State, w: nat, s': State)
    requires Sizes(g, s) && FinishedOk(g, s) && w < |s.ws| && s.ws[w].Free? && FreeStep(g, s, w, s')
    ensures Sizes(g, s') && FinishedOk(g, s')
  {
    hide FinishedOk, StatusFree;
    FinishedFrame(g, s, w, s');
  }

  lemma RunFinished(g: Nodes, s: State, w: nat, i: nat, s': State)
    requires Sizes(g, s) && FinishedOk(g, s) && w < |s.ws| && s.ws[w] == Running(i) && i < |g|
      && RunStep(g, s, w, i, s')
      && s' != Finish(g, s, w, i)
    ensures Sizes(g, s') && FinishedOk(g, s')
  {
    hide FinishedOk, StatusFree;
    FinishedFrame(g, s, w, s');
  }

  lemma ReleaseFinished(g: Nodes, s: State, w: nat, s': State)
    requires Step(g, s, w, s') && FinishedOk(g, s) && s.ws[w].Releasing? && Sizes(g, s')
    ensures FinishedOk(g, s')
  {
    hide FinishedOk;
    FinishedFrame(g, s, w, s');
  }

  lemma DrainFinished(g: Nodes, s: State, w: nat, s': State)
    requires Step(g, s, w, s') && FinishedOk(g, s) && s.ws[w].Draining? && Sizes(g, s')
    ensures FinishedOk(g, s')
  {
    assert Locks(s.ws[w]) && s.ws[w].tx in s.finished;
    hide FinishedOk, StatusFree;
    FinishedFrame(g, s, w, s');
  }

  // ---------------------------------------------------------------- nothing gets lost

  /** Whoever was somewhere still is, or moved to another place. */
  lemma LostFrame(s: State, w: nat, s': State)
    requires NothingLost(s) && OneMoved(s, w, s') && |s'.status| == |s.status| == |s'.remaining|
      && |s'.dependents| == |s.dependents|
    requires forall c: nat :: c < |s.status| && s'.remaining[c] == 0 ==> s.remaining[c] == 0 || NotLost(s', c)
    requires forall c: nat :: c < |s.status| && s.status[c].Finished? ==> s'.status[c].Finished? || NotLost(s', c)
    requires forall c: nat :: c in s.heap ==> c in s'.heap || InHand(s'.ws, c)
    requires forall c: nat :: c < |s.status| && Carries(s.ws[w], c) ==> Carries(s'.ws[w], c) || NotLost(s', c)
    requires forall j, c :: 0 <= j < |s.dependents| && c in s.dependents[j] ==>
      c in s'.dependents[j] || InHand(s'.ws, c)
    ensures NothingLost(s')
  {
    forall c: nat | c < |s'.status| && s'.remaining[c] == 0 ensures NotLost(s', c) {
      if s.remaining[c] == 0 {
        assert NotLost(s, c);
        if InHand(s.ws, c) {
          var v :| 0 <= v < |s.ws| && Carries(s.ws[v], c);
          assert v != w ==> Carries(s'.ws[v], c);
        } else if Waiting(s.dependents, c) {
          var j :| 0 <= j < |s.dependents| && c in s.dependents[j];
          assert c in s'.dependents[j] || InHand(s'.ws, c);
        }
      }
    }
  }

  lemma FreeLost(g: Nodes, s: State, w: nat, s': State)
    requires Sizes(g, s) && NothingLost(s) && w < |s.ws| && s.ws[w].Free? && FreeStep(g, s, w, s')
    ensures NothingLost(s')
  {
    hide NothingLost, StatusFree;
    if s'.ws[w].Holding? || s'.ws[w].Refuted? {
      assert Carries(s'.ws[w], s'.ws[w].tx) && InHand(s'.ws, s'.ws[w].tx);
    }
    LostFrame(s, w, s');
  }

  lemma SatisfiedLost(g: Nodes, s: State, w: nat, s': State)
    requires Step(g, s, w, s') && NothingLost(s) && RunnersOk(s) && s.ws[w].Satisfied?
    ensures NothingLost(s')
  {
    var c := s.ws[w].tx;
    if s.status[c].Executing? {
      assert Executed(s.ws, c);
      var v :| 0 <= v < |s.ws| && Executes(s.ws[v], c);
      assert v != w && Carries(s'.ws[v], c);
    }
    hide NothingLost, StatusFree, RunnersOk;
    LostFrame(s, w, s');
  }

  lemma RunLost(g: Nodes, s: State, w: nat, i: nat, s': State)
    requires Sizes(g, s) && NothingLost(s) && w < |s.ws| && s.ws[w] == Running(i) && i < |g| && RunStep(g, s, w, i, s')
    ensures NothingLost(s')
  {
    hide NothingLost, StatusFree;
    if s' != Finish(g, s, w, i) && s' != s {
      var j: nat :| j < i && StatusFree(s.ws, j) && s' == if s.status[j].Finished? then s else Waits(s, w, i, j);
      assert s'.dependents[j] == s.dependents[j] + [i] && i in s'.dependents[j] && Waiting(s'.dependents, i);
    }
    LostFrame(s, w, s');
  }

  lemma ReleaseLost(g: Nodes, s: State, w: nat, s': State)
    requires Step(g, s, w, s') && NothingLost(s) && s.ws[w].Releasing?
    ensures NothingLost(s')
  {
    hide NothingLost;
    forall c | s.ws[w].left == [] && c in s.dependents[s.ws[w].tx] ensures InHand(s'.ws, c) {
      assert Carries(s'.ws[w], c);
    }
    LostFrame(s, w, s');
  }

  lemma DrainLost(g: Nodes, s: State, w: nat, s': State)
    requires Step(g, s, w, s') && NothingLost(s) && s.ws[w].Draining? && WorkerBegun(s.remaining, s.ws[w])
    ensures NothingLost(s')
  {
    hide NothingLost, StatusFree;
    var rest := s.ws[w].rest;
    if rest != [] {
      assert rest == [rest[0]] + rest[1..] && rest[0] in rest && rest[0] in s'.heap;
    }
    LostFrame(s, w, s');
  }

  lemma StepLost(g: Nodes, s: State, w: nat, s': State)
    requires Step(g, s, w, s') && NothingLost(s) && RunnersOk(s) && WorkerBegun(s.remaining, s.ws[w])
    ensures NothingLost(s')
  {
    hide NothingLost, RunnersOk, StatusFree, WorkerBegun;
    match s.ws[w] {
      case Free => FreeLost(g, s, w, s');
      case Satisfied(_, _) => SatisfiedLost(g, s, w, s');
      case Running(i) => RunLost(g, s, w, i, s');
      case Releasing(_, _) => ReleaseLost(g, s, w, s');
      case Draining(_, _) => DrainLost(g, s, w, s');
      case _ => HeldLost(g, s, w, s');
    }
  }

  lemma HeldLost(g: Nodes, s: State, w: nat, s': State)
    requires Step(g, s, w, s') && NothingLost(s) && WorkerBegun(s.remaining, s.ws[w])
    requires s.ws[w].Holding? || s.ws[w].Stealing? || s.ws[w].Refuted?
    ensures NothingLost(s')
  {
    hide NothingLost, StatusFree;
    assert s.ws[w].Refuted? ==> Carries(s'.ws[w], s.ws[w].tx) && InHand(s'.ws, s.ws[w].tx);
    LostFrame(s, w, s');
  }

  lemma StepKept(g: Nodes, s: State, w: nat, s': State)
    requires Linked(g) && Kept(g, s) && Step(g, s, w, s')
    ensures Kept(g, s')
  {
    StepInv(g, s, w, s');
    assert WorkerBegun(s.remaining, s.ws[w]) by {
      hide Counted, GaveOnce, ReleaseOk, OneReleaser;
    }
    hide Inv, NothingLost, RunnersOk, LocksOk, FinishedOk, StartedOk, FlagsOk, Step;
    StepLost(g, s, w, s');
    StepRunners(g, s, w, s');
    StepLocks(g, s, w, s');
    StepStarted(g, s, w, s');
    StepFlags(g, s, w, s');
    StepFinished(g, s, w, s');
  }

  lemma {:induction false} RunKept(g: Nodes, run: seq<State>, movers: seq<nat>, k: nat)
    requires Linked(g) && IsRun(g, run, movers) && k < |run|
    ensures Kept(g, run[k])
  {
    hide Kept, Step, Init;
    if k == 0 {
      InitKept(g, run[0]);
    } else {
      RunKept(g, run, movers, k - 1);
      assert Step(g, run[k - 1], movers[k - 1], run[k - 1 + 1]);
      StepKept(g, run[k - 1], movers[k - 1], run[k]);
    }
  }

  // ---------------------------------------------------------------- what the scheduler guarantees

  /** A satisfied transaction has been on the heap. */
  lemma {:induction false} SatisfiedWasPushed(g: Nodes, run: seq<State>, movers: seq<nat>, k: nat, c: nat)
    requires Linked(g) && IsRun(g, run, movers) && k < |run| && c < |g|
    requires |run[k].remaining| == |g| && run[k].remaining[c] == 0
    ensures exists m: nat :: m <= k && c in run[m].heap
  {
    hide Step, Counted, BegunOk, OneReleaser, GaveOnce, ReleaseOk;
    if k == 0 {
      assert run[0].heap[c] == 1 && c in run[0].heap;
    } else {
      RunInv(g, run, movers, k - 1);
      assert Step(g, run[k - 1], movers[k - 1], run[k - 1 + 1]);
      if run[k - 1].remaining[c] == 0 {
        SatisfiedWasPushed(g, run, movers, k - 1, c);
      } else {
        ReachesHeap(g, run[k - 1], movers[k - 1], run[k], c);
      }
    }
  }

  lemma ReachesHeap(g: Nodes, s: State, w: nat, s': State, c: nat)
    requires Inv(g, s) && Step(g, s, w, s') && c < |g| == |s'.remaining| && s.remaining[c] != 0 && s'.remaining[c] == 0
    ensures c in s'.heap
  {
    hide Inv, StatusFree;
  }

  /** A drained dependent is made ready and put on the heap. */
  lemma DrainedIsPushed(g: Nodes, run: seq<State>, movers: seq<nat>, k: nat)
    requires Linked(g) && IsRun(g, run, movers) && k < |movers| && movers[k] < |run[k].ws|
    requires run[k].ws[movers[k]].Draining? && run[k].ws[movers[k]].rest != []
    ensures var c := run[k].ws[movers[k]].rest[0];
      c < |run[k + 1].status| && run[k + 1].status[c] == Ready && c in run[k + 1].heap
  {
    assert Step(g, run[k], movers[k], run[k + 1]);
    var rest := run[k].ws[movers[k]].rest;
    assert rest[0] in rest;
    DrainedAreSatisfied(g, run, movers, k, movers[k], rest[0]);
  }

  /** A satisfied transaction that has not begun an execution is on the heap, or a worker will execute it next. */
  lemma UnstartedIsAtHand(g: Nodes, run: seq<State>, movers: seq<nat>, k: nat, c: nat)
    requires Linked(g) && IsRun(g, run, movers) && k < |run| && c < |g|
    requires |run[k].remaining| == |g| && run[k].remaining[c] == 0 && c !in run[k].started
    ensures c in run[k].heap || exists v ::
      0 <= v < |run[k].ws| && (run[k].ws[v] == Holding(c) || run[k].ws[v] == Satisfied(c, false))
  {
    RunKept(g, run, movers, k);
    var s := run[k];
    hide Inv, RunnersOk, LocksOk, FinishedOk, FlagsOk;
    assert NotLost(s, c);
    if InHand(s.ws, c) {
      var v :| 0 <= v < |s.ws| && Carries(s.ws[v], c);
      assert WorkerStarted(s.started, s.ws[v]);
    }
  }

  /** Nothing is left to do. */
  ghost predicate AtRest(s: State) {
    s.heap == multiset{} && forall w :: 0 <= w < |s.ws| ==> s.ws[w].Free?
  }

  /** When the heap is empty and every worker is free, every transaction has finished. */
  lemma RestMeansFinished(g: Nodes, run: seq<State>, movers: seq<nat>, k: nat, c: nat)
    requires Linked(g) && Ascending(g) && IsRun(g, run, movers) && k < |run| && AtRest(run[k]) && c < |g|
    ensures c < |run[k].status| && run[k].status[c] == Finished
  {
    RunKept(g, run, movers, k);
    FinishedUpTo(g, run[k], c);
  }

  lemma {:induction false} FinishedUpTo(g: Nodes, s: State, c: nat)
    requires Linked(g) && Ascending(g) && Kept(g, s) && AtRest(s) && c < |g|
    ensures s.status[c] == Finished
  {
    forall d: nat | d < c ensures s.status[d] == Finished {
      FinishedUpTo(g, s, d);
    }
    forall p | p in g[c].parents ensures p in s.gave[c] {
      assert Edge(g, p, c) && GaveOrWill(s, p, c);
    }
    UndoneZero(g[c].parents, s.gave[c]);
    hide Inv;
    NobodyWaits(s, c);
    assert s.remaining[c] == 0 && NotLost(s, c);
  }

  lemma NobodyWaits(s: State, c: nat)
    requires LocksOk(s) && c < |s.status| && forall d: nat :: d < c ==> s.status[d].Finished?
    ensures !Waiting(s.dependents, c)
  {
  }

  /** Locks are taken upwards, so the holder of the highest one can always go on: there is no deadlock. */
  lemma HighestLockMoves(g: Nodes, run: seq<State>, movers: seq<nat>, k: nat, w: nat)
    requires Linked(g) && IsRun(g, run, movers) && k < |run| && w < |run[k].ws| && Locks(run[k].ws[w])
    requires forall v :: 0 <= v < |run[k].ws| && Locks(run[k].ws[v]) ==> run[k].ws[v].tx <= run[k].ws[w].tx
    ensures exists s' :: Step(g, run[k], w, s')
  {
    RunKept(g, run, movers, k);
    LockMoves(g, run[k], w);
  }

  lemma LockMoves(g: Nodes, s: State, w: nat)
    requires Kept(g, s) && w < |s.ws| && Locks(s.ws[w])
    requires forall v :: 0 <= v < |s.ws| && Locks(s.ws[v]) ==> s.ws[v].tx <= s.ws[w].tx
    ensures exists s' :: Step(g, s, w, s')
  {
    assert WorkerBegun(s.remaining, s.ws[w]) && DrainOk(s.dependents, s.ws[w]) && ReleaseOk(g, s, s.ws[w]);
    hide NothingLost, RunnersOk, LocksOk, FinishedOk, StartedOk, FlagsOk, Counted, OneReleaser, BegunOk, GaveOnce;
    match s.ws[w] {
      case Releasing(i, left) =>
        if left == [] {
          assert Step(g, s, w, Move(s, w, Draining(i, s.dependents[i])).(dependents := s.dependents[i := []]));
        } else {
          assert left[0] in left;
          assert Step(g, s, w, Decrement(s, i, left[0]).(ws := s.ws[w := Releasing(i, left[1..])]));
        }
      case Draining(i, rest) =>
        if rest == [] {
          assert Step(g, s, w, SetStatus(Move(s, w, Free), i, Finished));
        } else {
          assert rest[0] in rest;
          assert Step(g, s, w, SetStatus(Move(s, w, Draining(i, rest[1..])), rest[0], Ready).(heap :=
            s.heap + multiset{rest[0]}));
        }
    }
  }

  /** What a worker takes from the heap is the lowest transaction on it. */
  lemma HandsOutLowest(g: Nodes, run: seq<State>, movers: seq<nat>, k: nat)
    requires IsRun(g, run, movers) && k < |movers| && movers[k] < |run[k].ws| == |run[k + 1].ws|
    requires run[k].ws[movers[k]].Free? && run[k + 1].ws[movers[k]].Holding?
    ensures var c := run[k + 1].ws[movers[k]].tx;
      && c in run[k].heap && (forall d :: d in run[k].heap ==> c <= d)
      && run[k + 1].heap == run[k].heap - multiset{c}
  {
    assert Step(g, run[k], movers[k], run[k + 1]);
    hide StatusFree;
  }
}
