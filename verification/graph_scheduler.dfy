/** `GraphScheduler` as a state machine. Each atomic operation on a counter, a release flag, a
    dependents list or the heap is one step, and so is each section under a status lock, except that
    `finish_execution` holds the lock of its transaction over many steps. Which transaction the
    validation index points at, and which validations fail, is left open. */
module GraphScheduling {
  import opened Collections
  import opened GraphModel
  import opened ListSchedule

  /** `Executed` and `Validated` make no difference to the scheduling of executions. */
  datatype Status = Ready | Executing | Finished | Aborting

  datatype Worker =
    | Free
    | Holding(tx: nat)                     // got `tx` from the heap or from a failed validation
    | Stealing(tx: nat)                    // saw `tx` ready at the validation index
    | Satisfied(tx: nat, stolen: bool)     // saw no remaining dependency of `tx`
    | Running(tx: nat)
    | Releasing(tx: nat, left: seq<nat>)   // inside the loop over the children of `tx`
    | Draining(tx: nat, rest: seq<nat>)    // inside the loop over the drained dependents of `tx`
    | Refuted(tx: nat)                     // aborted `tx` after a failed validation

  /** `gave[c]` are the parents that released `c`; `started` and `finished` remember every transaction that
      began, or completed, an execution. No step reads these three. */
  datatype State = State(
    remaining: seq<int>,
    released: seq<bool>,
    dependents: seq<seq<nat>>,
    status: seq<Status>,
    heap: multiset<nat>,
    ws: seq<Worker>,
    gave: seq<set<nat>>,
    started: set<nat>,
    finished: set<nat>)

  ghost predicate Sizes(g: Nodes, s: State) {
    |s.remaining| == |s.released| == |s.dependents| == |s.status| == |s.gave| == |g|
  }

  /** `finish_execution` holds the status lock of its transaction. */
  predicate Locks(w: Worker) {
    w.Releasing? || w.Draining?
  }

  ghost predicate StatusFree(ws: seq<Worker>, i: nat) {
    forall v :: 0 <= v < |ws| && Locks(ws[v]) ==> ws[v].tx != i
  }

  // ---------------------------------------------------------------- steps

  function Decrement(s: State, i: nat, c: nat): State
    requires c < |s.remaining| == |s.gave|
  {
    s.(remaining := s.remaining[c := s.remaining[c] - 1],
       gave := s.gave[c := s.gave[c] + {i}],
       heap := if s.remaining[c] == 1 then s.heap + multiset{c} else s.heap)
  }

  /** `finish_execution` starts: the flag decides whether the children are released. */
  function Finish(g: Nodes, s: State, w: nat, i: nat): State
    requires i < |g| == |s.released| && w < |s.ws|
  {
    s.(released := s.released[i := true], finished := s.finished + {i},
       ws := s.ws[w := Releasing(i, if s.released[i] then [] else g[i].children)])
  }

  function Move(s: State, w: nat, to: Worker): State
    requires w < |s.ws|
  {
    s.(ws := s.ws[w := to])
  }

  function SetStatus(s: State, c: nat, st: Status): State
    requires c < |s.status|
  {
    s.(status := s.status[c := st])
  }

  /** The heap gives out the lowest index. */
  ghost predicate IsLowest(heap: multiset<nat>, c: nat) {
    c in heap && forall d :: d in heap ==> c <= d
  }

  /** Pop from the heap, look at the transaction under the validation index, abort a failed validation, or do nothing.
      */
  ghost predicate FreeStep(g: Nodes, s: State, w: nat, s': State)
    requires Sizes(g, s) && w < |s.ws|
  {
    || s' == s
    || (exists c :: IsLowest(s.heap, c) && s' == Move(s, w, Holding(c)).(heap := s.heap - multiset{c}))
    || (exists c: nat ::
          c < |g| && StatusFree(s.ws, c) && s.status[c].Ready? && s' == Move(s, w, Stealing(c)))
    || (exists c: nat ::
          c < |g| && StatusFree(s.ws, c) && s.status[c].Finished?
            && s' == SetStatus(Move(s, w, Refuted(c)), c, Aborting))
  }

  /** Give up on an estimate of a lower transaction, unless that one has finished in the meantime, or finish. */
  ghost predicate RunStep(g: Nodes, s: State, w: nat, i: nat, s': State)
    requires Sizes(g, s) && w < |s.ws| && i < |g|
  {
    && StatusFree(s.ws, i)
    && (|| s' == Finish(g, s, w, i)
        || exists j: nat ::
           j < i && StatusFree(s.ws, j) && s' == if s.status[j].Finished? then s else Waits(s, w, i, j))
  }

  function Waits(s: State, w: nat, i: nat, j: nat): State
    requires w < |s.ws| && j < |s.dependents| && i < |s.status|
  {
    SetStatus(Move(s, w, Free), i, Aborting).(dependents := s.dependents[j := s.dependents[j] + [i]])
  }

  ghost predicate Step(g: Nodes, s: State, w: nat, s': State) {
    && Sizes(g, s) && w < |s.ws|
    && match s.ws[w]
       case Free => FreeStep(g, s, w, s')
       case Holding(c) => c < |g| && s' == Move(s, w, if s.remaining[c] == 0 then Satisfied(c, false) else Free)
       case Stealing(c) => c < |g| && s' == Move(s, w, if s.remaining[c] == 0 then Satisfied(c, true) else Free)
       case Satisfied(c, stolen) =>
         && c < |g| && StatusFree(s.ws, c)
         && s' == if s.status[c].Ready? || (!stolen && s.status[c].Aborting?)
                  then SetStatus(Move(s, w, Running(c)), c, Executing).(started := s.started + {c})
                  else Move(s, w, Free)
       case Running(i) => i < |g| && RunStep(g, s, w, i, s')
       case Releasing(i, left) =>
         if left == [] then
           i < |g| && s' == Move(s, w, Draining(i, s.dependents[i])).(dependents := s.dependents[i := []])
         else
           left[0] < |g| && s' == Decrement(s, i, left[0]).(ws := s.ws[w := Releasing(i, left[1..])])
       case Draining(i, rest) =>
         if rest == [] then i < |g| && s' == SetStatus(Move(s, w, Free), i, Finished)
         else
           && rest[0] < |g| && StatusFree(s.ws, rest[0])
           && s' == if s.remaining[rest[0]] == 0
                    then SetStatus(Move(s, w, Draining(i, rest[1..])), rest[0], Ready).(heap :=
                           s.heap + multiset{rest[0]})
                    else Move(s, w, Draining(i, rest[1..]))
       case Refuted(c) => c < |g| && StatusFree(s.ws, c) && s' == SetStatus(Move(s, w, Holding(c)), c, Ready)
  }

  ghost predicate Init(g: Nodes, s: State) {
    && Sizes(g, s)
    && (forall i: nat :: i < |g| ==>
          && s.remaining[i] == |g[i].parents| && !s.released[i] && s.dependents[i] == [] && s.status[i] == Ready
          && s.gave[i] == {})
    && (forall i: nat :: s.heap[i] == if i < |g| && g[i].parents == [] then 1 else 0)
    && (forall w :: 0 <= w < |s.ws| ==> s.ws[w].Free?)
    && s.started == {} && s.finished == {}
  }

  ghost predicate IsRun(g: Nodes, run: seq<State>, movers: seq<nat>) {
    && |run| == |movers| + 1 && Init(g, run[0])
    && forall k :: 0 <= k < |movers| ==> Step(g, run[k], movers[k], run[k + 1])
  }

  // ---------------------------------------------------------------- the invariant

  /** A counter is the number of parents that have not released the node. */
  ghost predicate Counted(g: Nodes, s: State)
    requires Sizes(g, s)
  {
    forall c: nat :: c < |g| ==> s.remaining[c] == Undone(g[c].parents, s.gave[c])
  }

  /** Only parents that finished an execution, and set their flag, have released anything. */
  ghost predicate GaveOnce(s: State, c: nat)
    requires c < |s.gave|
  {
    forall p :: p in s.gave[c] ==> p < |s.released| && s.released[p] && p in s.finished
  }

  /** Children still to be released have not been. */
  ghost predicate ReleaseOk(g: Nodes, s: State, w: Worker)
    requires Sizes(g, s)
  {
    w.Releasing? ==>
      && w.tx < |g| && s.released[w.tx] && w.tx in s.finished && Distinct(w.left)
      && forall c :: c in w.left ==> c < |g| && w.tx in g[c].parents && w.tx !in s.gave[c]
  }

  ghost predicate OneReleaser(ws: seq<Worker>) {
    forall v, w ::
      0 <= v < |ws| && 0 <= w < |ws| && v != w && ws[v].Releasing? && ws[w].Releasing? && ws[v].tx == ws[w].tx ==>
        ws[v].left == [] || ws[w].left == []
  }

  /** What has begun to execute, or may do so next, has no remaining dependency. */
  ghost predicate Begun(remaining: seq<int>, c: nat) {
    c < |remaining| && remaining[c] == 0
  }

  ghost predicate AllBegun(remaining: seq<int>, q: seq<nat>) {
    forall c :: c in q ==> Begun(remaining, c)
  }

  ghost predicate WorkerBegun(remaining: seq<int>, w: Worker) {
    match w
    case Free => true
    case Holding(c) => Begun(remaining, c)
    case Stealing(c) => c < |remaining|
    case Satisfied(c, _) => Begun(remaining, c)
    case Running(i) => Begun(remaining, i)
    case Releasing(i, _) => Begun(remaining, i)
    case Draining(i, rest) => Begun(remaining, i) && AllBegun(remaining, rest)
    case Refuted(c) => Begun(remaining, c)
  }

  ghost predicate BegunOk(s: State) {
    && (forall c :: c in s.started ==> Begun(s.remaining, c))
    && (forall c :: 0 <= c < |s.status| && !s.status[c].Ready? ==> Begun(s.remaining, c))
    && (forall c :: c in s.heap ==> Begun(s.remaining, c))
    && (forall i :: 0 <= i < |s.dependents| ==> AllBegun(s.remaining, s.dependents[i]))
    && (forall w :: 0 <= w < |s.ws| ==> WorkerBegun(s.remaining, s.ws[w]))
  }

  ghost predicate Inv(g: Nodes, s: State) {
    && Sizes(g, s) && Counted(g, s) && OneReleaser(s.ws) && BegunOk(s)
    && (forall c: nat :: c < |g| ==> GaveOnce(s, c))
    && (forall w :: 0 <= w < |s.ws| ==> ReleaseOk(g, s, s.ws[w]))
  }

  lemma InitInv(g: Nodes, s: State)
    requires Init(g, s)
    ensures Inv(g, s)
  {
    forall c: nat | c < |g| ensures s.remaining[c] == Undone(g[c].parents, s.gave[c]) {
      UndoneAll(g[c].parents);
    }
    forall c | c in s.heap ensures Begun(s.remaining, c) {
      assert s.heap[c] > 0;
    }
  }

  /** The decrement of a release step never underflows: the releasing parent is still counted. */
  lemma NeverUnderflows(g: Nodes, s: State, w: nat)
    requires Linked(g) && Inv(g, s) && w < |s.ws| && s.ws[w].Releasing? && s.ws[w].left != []
    ensures s.ws[w].left[0] < |g| && s.remaining[s.ws[w].left[0]] >= 1
    ensures Undone(g[s.ws[w].left[0]].parents, s.gave[s.ws[w].left[0]] + {s.ws[w].tx}) ==
      s.remaining[s.ws[w].left[0]] - 1
  {
    var i, c := s.ws[w].tx, s.ws[w].left[0];
    assert ReleaseOk(g, s, s.ws[w]) && c in s.ws[w].left;
    UndoneZero(g[c].parents, s.gave[c]);
    UndoneDrops(g[c].parents, s.gave[c], i);
  }

  /** Lowering a counter that is not zero leaves every satisfied transaction satisfied. */
  lemma DecrementBegun(s: State, i: nat, c: nat)
    requires BegunOk(s) && c < |s.remaining| == |s.gave| && s.remaining[c] >= 1
    ensures BegunOk(Decrement(s, i, c))
  {
    var s' := Decrement(s, i, c);
    forall x: nat | Begun(s.remaining, x) ensures Begun(s'.remaining, x) {
    }
    forall q: seq<nat> | AllBegun(s.remaining, q) ensures AllBegun(s'.remaining, q) {
    }
    forall w | 0 <= w < |s'.ws| ensures WorkerBegun(s'.remaining, s'.ws[w]) {
      assert WorkerBegun(s.remaining, s.ws[w]);
    }
  }

  lemma DecrementReleases(g: Nodes, s: State, i: nat, c: nat, w: Worker)
    requires Sizes(g, s) && c < |g| && ReleaseOk(g, s, w) && (w.Releasing? && w.tx == i ==> c !in w.left)
    ensures ReleaseOk(g, Decrement(s, i, c), w)
  {
  }

  lemma ReleaseStep(g: Nodes, s: State, w: nat)
    requires Linked(g) && Inv(g, s) && w < |s.ws| && s.ws[w].Releasing? && s.ws[w].left != [] && s.ws[w].left[0] < |g|
    ensures Inv(g, Decrement(s, s.ws[w].tx, s.ws[w].left[0]).(ws :=
      s.ws[w := Releasing(s.ws[w].tx, s.ws[w].left[1..])]))
  {
    NeverUnderflows(g, s, w);
    var i, c, left := s.ws[w].tx, s.ws[w].left[0], s.ws[w].left;
    var s1 := Decrement(s, i, c);
    var s' := s1.(ws := s.ws[w := Releasing(i, left[1..])]);
    DecrementBegun(s, i, c);
    assert ReleaseOk(g, s, s.ws[w]) && left == [c] + left[1..] && c !in left[1..];
    forall v | 0 <= v < |s'.ws| ensures ReleaseOk(g, s', s'.ws[v]) {
      assert ReleaseOk(g, s, s.ws[v]);
      if v == w {
        assert forall x :: x in left[1..] ==> x in left;
        assert ReleaseOk(g, s, s'.ws[w]);
      } else if s.ws[v].Releasing? && s.ws[v].tx == i {
        assert s.ws[v].left == [];
      }
      DecrementReleases(g, s, i, c, s'.ws[v]);
    }
    forall x: nat | x < |g| ensures GaveOnce(s', x) {
      assert GaveOnce(s, x);
    }
  }

  lemma FinishStep(g: Nodes, s: State, w: nat, i: nat)
    requires Linked(g) && Inv(g, s) && w < |s.ws| && s.ws[w].Running? && s.ws[w].tx == i && i < |g|
    ensures Inv(g, Finish(g, s, w, i))
  {
    var s' := Finish(g, s, w, i);
    forall x: nat | x < |g| ensures GaveOnce(s', x) {
      assert GaveOnce(s, x);
    }
    forall v | 0 <= v < |s'.ws| ensures ReleaseOk(g, s', s'.ws[v]) {
      assert ReleaseOk(g, s, s.ws[v]);
      if v == w && !s.released[i] {
        FirstRelease(g, s, i);
      }
    }
    forall v, u | 0 <= v < |s'.ws| && 0 <= u < |s'.ws| && v != u && s'.ws[v].Releasing? && s'.ws[u].Releasing?
      && s'.ws[v].tx == s'.ws[u].tx
      ensures s'.ws[v].left == [] || s'.ws[u].left == []
    {
      assert ReleaseOk(g, s, s.ws[v]) && ReleaseOk(g, s, s.ws[u]);
    }
  }

  /** A transaction whose flag was clear has released none of its children. */
  lemma FirstRelease(g: Nodes, s: State, i: nat)
    requires Linked(g) && Inv(g, s) && i < |g| && !s.released[i]
    ensures forall c :: c in g[i].children ==> c < |g| && i in g[c].parents && i !in s.gave[c]
  {
    forall c | c in g[i].children ensures c < |g| && i in g[c].parents && i !in s.gave[c] {
      assert GaveOnce(s, c);
    }
  }

  /** A step that leaves counters and flags alone. */
  lemma QuietStep(g: Nodes, s: State, w: nat, s': State)
    requires Inv(g, s) && Sizes(g, s') && w < |s.ws|
    requires s'.remaining == s.remaining && s'.released == s.released && s'.gave == s.gave && s'.finished == s.finished
    requires |s'.ws| == |s.ws| && (forall v :: 0 <= v < |s.ws| && v != w ==> s'.ws[v] == s.ws[v])
      && (s'.ws[w].Releasing? ==> s'.ws[w] == s.ws[w])
    requires BegunOk(s')
    ensures Inv(g, s')
  {
    forall x: nat | x < |g| ensures GaveOnce(s', x) {
      assert GaveOnce(s, x);
    }
    forall v | 0 <= v < |s'.ws| ensures ReleaseOk(g, s', s'.ws[v]) {
      assert ReleaseOk(g, s, s.ws[v]);
    }
  }

  /** Only satisfied transactions are put anywhere. */
  ghost predicate OnlyBegun(s: State, w: nat, s': State) {
    && s'.remaining == s.remaining && w < |s.ws| == |s'.ws| && s'.ws == s.ws[w := s'.ws[w]]
    && WorkerBegun(s.remaining, s'.ws[w])
    && (forall c :: c in s'.started ==> c in s.started || Begun(s.remaining, c))
    && (forall c :: c in s'.heap ==> c in s.heap || Begun(s.remaining, c))
    && |s'.status| == |s.status| && |s'.dependents| == |s.dependents|
    && (forall c :: 0 <= c < |s.status| && !s'.status[c].Ready? ==> !s.status[c].Ready? || Begun(s.remaining, c))
    && (forall i :: 0 <= i < |s.dependents| ==>
          s'.dependents[i] == s.dependents[i] || AllBegun(s.remaining, s'.dependents[i]))
  }

  lemma BegunKept(s: State, w: nat, s': State)
    requires BegunOk(s) && OnlyBegun(s, w, s')
    ensures BegunOk(s')
  {
    forall v | 0 <= v < |s'.ws| ensures WorkerBegun(s'.remaining, s'.ws[v]) {
      assert WorkerBegun(s.remaining, s.ws[v]);
    }
  }

  lemma QuietBegun(g: Nodes, s: State, w: nat, s': State)
    requires Inv(g, s) && Step(g, s, w, s') && (s.ws[w].Releasing? ==> s.ws[w].left == [])
    ensures s'.remaining == s.remaining && BegunOk(s')
  {
    hide Counted, GaveOnce, ReleaseOk, OneReleaser, StatusFree, BegunOk, OnlyBegun;
    match s.ws[w] {
      case Free => FreeBegun(g, s, w, s');
      case Running(i) => RunBegun(g, s, w, i, s');
      case Draining(_, _) => DrainBegun(g, s, w, s');
      case _ => HeldBegun(g, s, w, s');
    }
    BegunKept(s, w, s');
  }

  lemma DrainBegun(g: Nodes, s: State, w: nat, s': State)
    requires BegunOk(s) && Step(g, s, w, s') && s.ws[w].Draining?
    ensures OnlyBegun(s, w, s')
  {
    hide StatusFree;
    assert WorkerBegun(s.remaining, s.ws[w]);
    var rest := s.ws[w].rest;
    if rest != [] {
      assert rest == [rest[0]] + rest[1..] && rest[0] in rest;
    }
  }

  lemma HeldBegun(g: Nodes, s: State, w: nat, s': State)
    requires BegunOk(s) && Step(g, s, w, s') && !s.ws[w].Free? && !s.ws[w].Running? && !s.ws[w].Draining?
    requires s.ws[w].Releasing? ==> s.ws[w].left == []
    ensures OnlyBegun(s, w, s')
  {
    hide StatusFree;
    assert WorkerBegun(s.remaining, s.ws[w]);
  }

  lemma FreeBegun(g: Nodes, s: State, w: nat, s': State)
    requires Sizes(g, s) && BegunOk(s) && w < |s.ws| && s.ws[w].Free? && FreeStep(g, s, w, s')
    ensures OnlyBegun(s, w, s')
  {
    hide StatusFree;
  }

  lemma RunBegun(g: Nodes, s: State, w: nat, i: nat, s': State)
    requires Sizes(g, s) && BegunOk(s) && w < |s.ws| && s.ws[w] == Running(i) && i < |g| && RunStep(g, s, w, i, s')
    ensures OnlyBegun(s, w, s')
  {
    hide StatusFree;
    assert WorkerBegun(s.remaining, s.ws[w]);
  }

  lemma StepInv(g: Nodes, s: State, w: nat, s': State)
    requires Linked(g) && Inv(g, s) && Step(g, s, w, s')
    ensures Inv(g, s')
    ensures forall c: nat :: c < |g| && s.remaining[c] == 0 ==> s'.remaining[c] == 0
  {
    hide OneReleaser, BegunOk, StatusFree, Counted, GaveOnce, ReleaseOk;
    if s.ws[w].Releasing? && s.ws[w].left != [] {
      NeverUnderflows(g, s, w);
      ReleaseStep(g, s, w);
    } else if s.ws[w].Running? && s' == Finish(g, s, w, s.ws[w].tx) {
      FinishStep(g, s, w, s.ws[w].tx);
    } else {
      QuietBegun(g, s, w, s');
      QuietStep(g, s, w, s');
    }
  }

  lemma {:induction false} RunInv(g: Nodes, run: seq<State>, movers: seq<nat>, k: nat)
    requires Linked(g) && IsRun(g, run, movers) && k < |run|
    ensures Inv(g, run[k])
  {
    hide Inv, Step, Init;
    if k == 0 {
      InitInv(g, run[0]);
    } else {
      RunInv(g, run, movers, k - 1);
      assert Step(g, run[k - 1], movers[k - 1], run[k - 1 + 1]);
      StepInv(g, run[k - 1], movers[k - 1], run[k]);
    }
  }

  // ---------------------------------------------------------------- what the counters guarantee

  /** In every reachable state a counter is the number of parents that have not yet released the node. */
  lemma CountersAreExact(g: Nodes, run: seq<State>, movers: seq<nat>, k: nat, c: nat)
    requires Linked(g) && IsRun(g, run, movers) && k < |run| && c < |g|
    ensures |run[k].remaining| == |run[k].gave| == |g|
    ensures run[k].remaining[c] == Undone(g[c].parents, run[k].gave[c]) >= 0
    ensures run[k].remaining[c] == 0 <==> forall p :: p in g[c].parents ==> p in run[k].gave[c]
  {
    RunInv(g, run, movers, k);
    UndoneZero(g[c].parents, run[k].gave[c]);
  }

  /** A satisfied transaction stays satisfied. */
  lemma {:induction false} ZeroStaysZero(g: Nodes, run: seq<State>, movers: seq<nat>, k: nat, m: nat, c: nat)
    requires Linked(g) && IsRun(g, run, movers) && k <= m < |run| && c < |g|
    requires |run[k].remaining| == |g| && run[k].remaining[c] == 0
    ensures |run[m].remaining| == |g| && run[m].remaining[c] == 0
    decreases m
  {
    hide Step, Counted, BegunOk, OneReleaser, GaveOnce, ReleaseOk, Init;
    RunInv(g, run, movers, m);
    if k < m {
      ZeroStaysZero(g, run, movers, k, m - 1, c);
      RunInv(g, run, movers, m - 1);
      assert Step(g, run[m - 1], movers[m - 1], run[m - 1 + 1]);
      StepInv(g, run[m - 1], movers[m - 1], run[m]);
    }
  }

  /** A transaction begins its first execution only after every parent has finished one. */
  lemma ParentsFinishFirst(g: Nodes, run: seq<State>, movers: seq<nat>, k: nat, c: nat, p: nat)
    requires Linked(g) && IsRun(g, run, movers) && k < |run| && c in run[k].started && c < |g| && p in g[c].parents
    ensures p in run[k].finished
  {
    RunInv(g, run, movers, k);
    assert Begun(run[k].remaining, c);
    CountersAreExact(g, run, movers, k, c);
    assert GaveOnce(run[k], c);
  }

  /** Drained dependents always have their dependencies satisfied, so each of them is resumed. */
  lemma DrainedAreSatisfied(g: Nodes, run: seq<State>, movers: seq<nat>, k: nat, w: nat, c: nat)
    requires Linked(g) && IsRun(g, run, movers) && k < |run| && w < |run[k].ws|
    requires run[k].ws[w].Draining? && c in run[k].ws[w].rest
    ensures c < |g| == |run[k].remaining| && run[k].remaining[c] == 0
  {
    RunInv(g, run, movers, k);
    assert WorkerBegun(run[k].remaining, run[k].ws[w]);
    assert Begun(run[k].remaining, c);
  }

  /** Nothing on the heap waits for a parent. */
  lemma HeapIsSatisfied(g: Nodes, run: seq<State>, movers: seq<nat>, k: nat, c: nat)
    requires Linked(g) && IsRun(g, run, movers) && k < |run| && c in run[k].heap
    ensures c < |g| == |run[k].remaining| && run[k].remaining[c] == 0
  {
    RunInv(g, run, movers, k);
    assert Begun(run[k].remaining, c);
  }
}
