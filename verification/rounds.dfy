/** Rounds of one worker while all others rest: from one visit of `next_task` to the next, the lowest transaction
    that changes gets closer to being validated for good, or an index moves on. */
module Rounds {
  import opened Collections
  import opened MemoryModel
  import opened TransactionProgram
  import opened Protocol
  import opened Ownership
  import opened VersionsInvariant
  import opened Obligations
  import opened Completion
  import opened Serializability
  import opened Aborts
  import opened LoneWorker

  // ---------------------------------------------------------------- how much is left

  /** 0 for a validated transaction with valid reads, 1 if the validation is missing, 2 if the execution is, and 3 if
      the execution was in vain. */
  ghost function Rank(sh: Shared, t: nat): nat
    requires t < |sh.status|
  {
    if !Finished(sh.status[t]) then 2
    else if IsStale(sh, t) then 3
    else if sh.status[t].status.Executed? then 1 else 0
  }

  ghost function Ranks(sh: Shared): seq<nat> {
    seq(|sh.status|, t requires 0 <= t < |sh.status| => Rank(sh, t))
  }

  /** Lower transactions weigh more than all higher ones together. */
  function Weight(r: seq<nat>): nat {
    if r == [] then 0 else 4 * Weight(r[..|r| - 1]) + r[|r| - 1]
  }

  lemma {:induction false} WeightGrows(r: seq<nat>, r': seq<nat>)
    requires |r'| == |r| && forall j :: 0 <= j < |r| ==> r'[j] <= r[j]
    ensures Weight(r') <= Weight(r)
  {
    if r != [] {
      WeightGrows(r[..|r| - 1], r'[..|r| - 1]);
    }
  }

  lemma {:induction false} WeightDrops(r: seq<nat>, r': seq<nat>, t: nat)
    requires t < |r| == |r'| && (forall j :: 0 <= j < t ==> r'[j] <= r[j]) && r'[t] < r[t]
    requires forall j :: 0 <= j < |r| ==> r'[j] <= 3
    ensures Weight(r') < Weight(r)
  {
    var front, front' := r[..|r| - 1], r'[..|r| - 1];
    if t == |r| - 1 {
      WeightGrows(front, front');
    } else {
      WeightDrops(front, front', t);
    }
  }

  /** How far the two indexes still have to go. */
  function Ahead(sh: Shared): nat {
    var n := |sh.status|;
    n - Min(n, sh.executionIdx) + (n - Min(n, sh.validationIdx))
  }

  /** Transactions below `t` have their status, and no outdated read they did not have. */
  ghost predicate KeptBelow(sh: Shared, sh': Shared, t: nat) {
    && |sh'.status| == |sh.status| && t <= |sh.status|
    && forall j: nat :: j < t ==> sh'.status[j].status == sh.status[j].status && (IsStale(sh', j) ==> IsStale(sh, j))
  }

  ghost predicate SameWork(sh: Shared, sh': Shared) {
    sh'.status == sh.status && sh'.data == sh.data && sh'.lastReads == sh.lastReads
  }

  ghost predicate Closer(sh: Shared, sh': Shared, t: nat) {
    t < |sh.status| && KeptBelow(sh, sh', t) && Rank(sh', t) < Rank(sh, t)
  }

  /** Something was achieved. */
  ghost predicate Better(sh: Shared, sh': Shared) {
    (exists t: nat :: Closer(sh, sh', t)) || (SameWork(sh, sh') && Ahead(sh') < Ahead(sh))
  }

  lemma BetterWeighsLess(sh: Shared, sh': Shared)
    requires Better(sh, sh')
    ensures Weight(Ranks(sh')) < Weight(Ranks(sh))
      || (Weight(Ranks(sh')) == Weight(Ranks(sh)) && Ahead(sh') < Ahead(sh))
  {
    hide IsStale, Weight;
    if t: nat :| Closer(sh, sh', t) {
      WeightDrops(Ranks(sh), Ranks(sh'), t);
    } else {
      forall t: nat | t < |sh.status| ensures Rank(sh', t) == Rank(sh, t) {
        SameStale(sh, sh', t);
      }
      assert Ranks(sh') == Ranks(sh);
    }
  }

  // ---------------------------------------------------------------- where the worker stands in a round

  /** The validation under way is that of the transaction the validation index pointed at, and nothing has changed. */
  predicate First(base: Shared, sh: Shared, t: nat) {
    sh == base.(validationIdx := base.validationIdx + 1) && base.validationIdx == t < |base.status|
  }

  /** It is that of an execution of this round. */
  ghost predicate Again(base: Shared, sh: Shared, t: nat) {
    t < |base.status| && Rank(base, t) >= 2 && !IsStale(sh, t)
  }

  ghost predicate SeekToward(base: Shared, sh: Shared, p: SeekPhase) {
    var n, e, v := |base.status|, base.executionIdx, base.validationIdx;
    match p
    case Begin => Better(base, sh)
    case LoadExecution => sh == base
    case LoadValidation(x) => sh == base && x == e
    case LoadNumValidated => sh == base && e >= n && v >= n
    case LoadMinValidation(num) => sh == base && e >= n && v >= n && num == sh.numValidated
    case BumpValidation => sh == base && v < e && v < n
    case PeekValidation(t) => First(base, sh, t) && t < e
    case BumpExecution => sh == base && e < n
    case PeekExecution(t) => sh == base.(executionIdx := e + 1) && t == e < n
  }

  ghost predicate ExecToward(b: Block, base: Shared, sh: Shared, t: nat, p: ExecPhase) {
    && t < |base.status| && KeptBelow(base, sh, t) && Rank(base, t) >= 2 && sh.executionIdx > t && !p.Blocked?
    && if p.Run? then FreshRun(b, sh.data, t, p.readSet) else !IsStale(sh, t)
  }

  ghost predicate ValToward(base: Shared, sh: Shared, t: nat, p: ValPhase) {
    && t < |base.status| && KeptBelow(base, sh, t) && sh.executionIdx > t
    && match p
       case Start => Finished(sh.status[t]) && (First(base, sh, t) || Again(base, sh, t))
       case Check(left) =>
         && Finished(sh.status[t]) && (First(base, sh, t) || Again(base, sh, t))
         && forall l :: l !in left ==> !Stale(sh, t, l)
       case Confirm => Finished(sh.status[t]) && !IsStale(sh, t) && (First(base, sh, t) || Again(base, sh, t))
       case Refute => Finished(sh.status[t]) && Rank(base, t) == 3
       case ToEstimates => Rank(base, t) == 3
       case Estimating(_) => Rank(base, t) == 3
       case MakeReady => Rank(base, t) == 3
       case _ => Rank(base, t) == 3 && sh.status[t].status.ReadyToExecute?
  }

  /** All there is to do was done. */
  ghost predicate AllDone(sh: Shared) {
    sh.executionIdx >= |sh.status| && sh.validationIdx >= |sh.status| && sh.numValidated == |sh.status|
  }

  ghost predicate Toward(b: Block, base: Shared, sh: Shared, w: Worker) {
    && |sh.status| == |base.status|
    && match w
       case Seek(p) => SeekToward(base, sh, p)
       case Exec(t, _, p) => ExecToward(b, base, sh, t, p)
       case Valid(t, p) => ValToward(base, sh, t, p)
       case Left => AllDone(sh)
       case Raise => false
  }

  // ---------------------------------------------------------------- looking for work

  /** Nobody else has a task. */
  ghost predicate Resting(s: State, w: nat) {
    w < |s.ws| && forall u :: 0 <= u < |s.ws| && u != w ==> s.ws[u] == Seek(Begin) || s.ws[u].Left?
  }

  lemma RestingIsLone(s: State, w: nat)
    requires Resting(s, w)
    ensures Lone(s, w)
  {
  }

  lemma KeptSame(sh: Shared, sh': Shared, t: nat)
    requires SameWork(sh, sh') && t <= |sh.status|
    ensures KeptBelow(sh, sh', t)
  {
    forall j: nat | j < t ensures IsStale(sh', j) == IsStale(sh, j) {
      SameStale(sh, sh', j);
    }
  }

  lemma NobodyExecutes(s: State, w: nat, t: nat)
    requires Owned(s) && Resting(s, w) && s.ws[w].Seek? && t < |s.sh.status|
    ensures !s.sh.status[t].status.Executing?
  {
    hide OneOwner, DependentsFit;
  }

  lemma NothingLeft(b: Block, s: State, w: nat)
    requires Sound(b, s) && Resting(s, w) && s.ws[w].Seek? && s.ws[w].seek.LoadMinValidation?
    requires s.sh.executionIdx >= |s.sh.status| && s.sh.validationIdx >= |s.sh.status|
    ensures s.sh.numValidated == |s.sh.status|
  {
    hide Sound, AllValid;
    NotStuck(b, s);
  }

  lemma SeekRounds(b: Block, base: Shared, s: State, w: nat, sh': Shared, w': Worker)
    requires w < |s.ws| && s.ws[w].Seek? && !s.ws[w].seek.Begin? && SeekStep(s, w, sh', w')
    requires SeekToward(base, s.sh, s.ws[w].seek) && |s.sh.status| == |base.status|
    requires s.ws[w].seek.LoadMinValidation? ==> s.sh.numValidated == |s.sh.status|
    requires s.ws[w].seek.PeekValidation? && s.ws[w].seek.t < |s.sh.status| ==>
      !s.sh.status[s.ws[w].seek.t].status.Executing?
    ensures Toward(b, base, sh', w')
  {
    hide IsStale, StatusFree, KeptBelow, Rank, Better;
    match s.ws[w].seek
    case PeekValidation(t) => PeekValidationRounds(b, base, s, w, sh', w', t);
    case PeekExecution(t) => PeekExecutionRounds(b, base, s, w, sh', w', t);
    case _ => LoadRounds(b, base, s, w, sh', w');
  }

  lemma LoadRounds(b: Block, base: Shared, s: State, w: nat, sh': Shared, w': Worker)
    requires w < |s.ws| && s.ws[w].Seek? && !s.ws[w].seek.Begin? && SeekStep(s, w, sh', w')
    requires !s.ws[w].seek.PeekValidation? && !s.ws[w].seek.PeekExecution?
    requires SeekToward(base, s.sh, s.ws[w].seek) && |s.sh.status| == |base.status|
    requires s.ws[w].seek.LoadMinValidation? ==> s.sh.numValidated == |s.sh.status|
    ensures Toward(b, base, sh', w')
  {
    hide IsStale, StatusFree, KeptBelow, Rank, Better, ExecToward, ValToward;
  }

  lemma PeekValidationRounds(b: Block, base: Shared, s: State, w: nat, sh': Shared, w': Worker, t: nat)
    requires w < |s.ws| && s.ws[w] == Seek(PeekValidation(t)) && SeekStep(s, w, sh', w')
    requires First(base, s.sh, t) && t < base.executionIdx && !s.sh.status[t].status.Executing?
    ensures Toward(b, base, sh', w')
  {
    if w'.Exec? {
      assert FreshRun(b, sh'.data, t, map[]);
      StartKept(base, sh', t);
    } else {
      assert SameWork(base, sh');
      KeptSame(base, sh', t);
    }
    hide IsStale, StatusFree, KeptBelow, FreshRun;
  }

  /** Taking a ready transaction changes its status only. */
  lemma StartKept(sh: Shared, sh': Shared, t: nat)
    requires t < |sh.status| == |sh'.status| && sh'.data == sh.data && sh'.lastReads == sh.lastReads
    requires forall j :: 0 <= j < |sh.status| && j != t ==> sh'.status[j] == sh.status[j]
    ensures KeptBelow(sh, sh', t)
  {
    forall j: nat | j < t ensures IsStale(sh', j) == IsStale(sh, j) {
      SameStale(sh, sh', j);
    }
  }

  lemma PeekExecutionRounds(b: Block, base: Shared, s: State, w: nat, sh': Shared, w': Worker, t: nat)
    requires w < |s.ws| && s.ws[w] == Seek(PeekExecution(t)) && SeekStep(s, w, sh', w')
    requires s.sh == base.(executionIdx := base.executionIdx + 1) && t == base.executionIdx < |base.status|
    ensures Toward(b, base, sh', w')
  {
    if w'.Exec? {
      assert FreshRun(b, sh'.data, t, map[]);
      StartKept(base, sh', t);
    } else {
      assert SameWork(base, sh');
    }
    hide IsStale, StatusFree, KeptBelow, FreshRun;
  }

  // ---------------------------------------------------------------- executing

  /** With nothing unfinished below, a read is not blocked and agrees with those before. */
  lemma FreshRead(b: Block, s: State, i: nat, rs: ReadSet, l: Loc)
    requires Sizes(b, s) && Versioned(b, s) && NoneDestroyed(s) && Tame(b) && i <= |s.sh.status|
    requires FreshRun(b, s.sh.data, i, rs) && forall j: nat :: j < i ==> Finished(s.sh.status[j])
    ensures var m, code := At(s.sh.data, l), b.isCode(l);
      var r := Intercept(m, i, code, if l in rs then Some(rs[l]) else None);
      && r.Got? && !InterceptedValue(m, i, code, b.storage(l)).Destroyed?
      && FreshRun(b, s.sh.data, i, rs[l := r.origins])
  {
    var m, code := At(s.sh.data, l), b.isCode(l);
    var prev := if l in rs then Some(rs[l]) else None;
    NoEstimateBelow(b, s, i, l);
    WalkFree(m, i);
    ReadsAgain(m, i, code, prev);
    WalkNotDestroyed(m, i, b.storage(l), NO_UPDATES);
  }

  lemma RunRounds(b: Block, base: Shared, s: State, w: nat, sh': Shared, w': Worker)
    requires Sizes(b, s) && Owned(s) && Versioned(b, s) && Pending(s) && NoneDestroyed(s) && Tame(b) && Lone(s, w)
    requires s.ws[w].Exec? && s.ws[w].exec.Run? && ExecStep(b, s, w, sh', w')
    requires |s.sh.status| == |base.status| && ExecToward(b, base, s.sh, s.ws[w].tx, s.ws[w].exec)
    ensures Toward(b, base, sh', w')
  {
    var i, rs := s.ws[w].tx, s.ws[w].exec.readSet;
    forall j: nat | j < i ensures Finished(s.sh.status[j]) {
      LowerFinished(b, s, w, j);
    }
    match Next(b.txs[i], s.ws[w].exec.values)
    case Read(l) =>
      FreshRead(b, s, i, rs, l);
      hide Versioned, Owned, Pending, NoneDestroyed, Tame, Lone, Intercept, InterceptedValue, FreshRun, KeptBelow,
        LocationsFree, IsStale;
      ReadOutcome(b, s, w, sh', w', l);
    case Finish(o) =>
      assert o.Done? && Stored(b, s.sh, s.ws[w]) && ReadsOk(s.sh.history, i, rs);
      DoneRounds(b, base, s, w, sh', w', o);
  }

  lemma DoneRounds(b: Block, base: Shared, s: State, w: nat, sh': Shared, w': Worker, o: Outcome)
    requires Sizes(b, s) && Versioned(b, s) && w < |s.ws| && o.Done?
    requires s.ws[w].Exec? && s.ws[w].exec.Run? && ExecStep(b, s, w, sh', w')
    requires Next(b.txs[s.ws[w].tx], s.ws[w].exec.values) == Finish(o)
    requires ReadsOk(s.sh.history, s.ws[w].tx, s.ws[w].exec.readSet)
    requires forall j: nat :: j < s.ws[w].tx ==> Finished(s.sh.status[j])
    requires |s.sh.status| == |base.status| && ExecToward(b, base, s.sh, s.ws[w].tx, s.ws[w].exec)
    ensures Toward(b, base, sh', w')
  {
    var i, rs := s.ws[w].tx, s.ws[w].exec.readSet;
    forall l ensures !Stale(sh', i, l) {
      if l in rs {
        FreshIsValid(b, s, i, rs, l);
      }
    }
    hide Versioned, FreshRun, LocationsFree;
    forall j: nat | j < i ensures IsStale(sh', j) ==> IsStale(s.sh, j) {
      if l :| Stale(sh', j, l) {
        assert Stale(s.sh, j, l);
      }
    }
    hide IsStale, Stale;
  }

  lemma EntryKept(base: Shared, sh: Shared, sh': Shared, i: nat, l: Loc)
    requires KeptBelow(base, sh, i) && EntryChanged(sh, sh', i, l)
    ensures KeptBelow(base, sh', i) && (IsStale(sh', i) ==> IsStale(sh, i))
  {
    forall j: nat | j <= i && IsStale(sh', j) ensures IsStale(sh, j) {
      var k :| Stale(sh', j, k);
      if !Stale(sh, j, k) {
        EntryKeeps(sh, sh', i, l, j, k);
      }
    }
  }

  lemma RecordRounds(b: Block, base: Shared, s: State, w: nat, sh': Shared, w': Worker)
    requires w < |s.ws| && s.ws[w].Exec? && s.ws[w].exec.Record? && ExecStep(b, s, w, sh', w')
    requires |s.sh.status| == |base.status| && ExecToward(b, base, s.sh, s.ws[w].tx, s.ws[w].exec)
    ensures Toward(b, base, sh', w')
  {
    hide ExecStep, KeptBelow, IsStale, Rank, RecordsAt;
    RecordStep(b, s, w, sh', w');
    if l :| RecordsAt(s.sh, s.ws[w], sh', w', l) {
      RecordsRounds(b, base, s.sh, s.ws[w], sh', w', l);
    }
  }

  lemma RecordsRounds(b: Block, base: Shared, sh: Shared, w: Worker, sh': Shared, w': Worker, l: Loc)
    requires w.Exec? && w.exec.Record? && RecordsAt(sh, w, sh', w', l)
    requires |sh.status| == |base.status| && ExecToward(b, base, sh, w.tx, w.exec)
    ensures Toward(b, base, sh', w')
  {
    assert EntryChanged(sh, sh', w.tx, l);
    EntryKept(base, sh, sh', w.tx, l);
    hide KeptBelow, IsStale, Rank, EntryChanged;
  }

  lemma FinishRounds(b: Block, base: Shared, s: State, w: nat, sh': Shared, w': Worker)
    requires w < |s.ws| && PastRun(s.ws[w]) && !s.ws[w].exec.Record? && !s.ws[w].exec.Mark?
      && ExecStep(b, s, w, sh', w')
    requires Fits(s.sh, s.ws[w])
    requires |s.sh.status| == |base.status| && ExecToward(b, base, s.sh, s.ws[w].tx, s.ws[w].exec)
    ensures Toward(b, base, sh', w')
  {
    FinishFacts(b, s, w, sh', w');
    var i := s.ws[w].tx;
    assert |sh'.status| == |s.sh.status| && forall j :: 0 <= j <= i ==>
      sh'.status[j].status == s.sh.status[j].status by {
      hide RunStep, IsStale, KeptBelow, StatusFree;
    }
    hide ExecStep, Fits;
    forall j: nat | j <= i ensures IsStale(sh', j) == IsStale(s.sh, j) {
      SameStale(s.sh, sh', j);
    }
    hide IsStale, Rank;
  }

  lemma MarkRounds(b: Block, base: Shared, s: State, w: nat, sh': Shared, w': Worker)
    requires w < |s.ws| && s.ws[w].Exec? && s.ws[w].exec.Mark? && ExecStep(b, s, w, sh', w')
    requires |s.sh.status| == |base.status| && ExecToward(b, base, s.sh, s.ws[w].tx, s.ws[w].exec)
    ensures Toward(b, base, sh', w')
  {
    var i := s.ws[w].tx;
    assert sh' == SetStatus(s.sh, i, Executed) && w' == if s.ws[w].exec.again then Valid(i, Start) else Seek(Begin) by {
      hide RunStep, IsStale, KeptBelow;
    }
    hide ExecStep;
    forall j: nat | j <= i ensures IsStale(sh', j) == IsStale(s.sh, j) {
      SameStale(s.sh, sh', j);
    }
    hide IsStale;
    assert KeptBelow(base, sh', i) && Rank(sh', i) == 1;
    assert Closer(base, sh', i);
  }

  // ---------------------------------------------------------------- validating

  lemma CheckRounds(b: Block, base: Shared, s: State, w: nat, sh': Shared, w': Worker)
    requires w < |s.ws| && s.ws[w].Valid? && (s.ws[w].val.Start? || s.ws[w].val.Check?) && ValStep(s, w, sh', w')
    requires |s.sh.status| == |base.status| && ValToward(base, s.sh, s.ws[w].tx, s.ws[w].val)
    ensures Toward(b, base, sh', w')
  {
    var i, p := s.ws[w].tx, s.ws[w].val;
    assert sh' == s.sh;
    if p.Check? && p.left != {} {
      var l :| l in p.left && l in s.sh.lastReads[i] && w' == Valid(i, CheckAt(s.sh, i, p.left, l));
      if w'.val.Refute? {
        assert Stale(s.sh, i, l) && IsStale(s.sh, i);
        SameStale(base, s.sh, i);
      }
    }
    hide LocationsFree, ReadHolds, KeptBelow;
  }

  lemma ConfirmRounds(b: Block, base: Shared, s: State, w: nat, sh': Shared, w': Worker)
    requires w < |s.ws| && s.ws[w].Valid? && s.ws[w].val.Confirm? && ValStep(s, w, sh', w')
    requires |s.sh.status| == |base.status| && ValToward(base, s.sh, s.ws[w].tx, s.ws[w].val)
    ensures Toward(b, base, sh', w')
  {
    var i := s.ws[w].tx;
    forall j: nat | j <= i ensures IsStale(sh', j) == IsStale(s.sh, j) {
      SameStale(s.sh, sh', j);
    }
    hide IsStale, StatusFree;
    assert KeptBelow(base, sh', i) && Rank(sh', i) == 0;
    if First(base, s.sh, i) && base.status[i].status.Validated? {
      assert SameWork(base, sh') && Ahead(sh') < Ahead(base);
    } else {
      FirstIsExecuted(base, s.sh, i);
      assert Closer(base, sh', i);
    }
  }

  lemma FirstIsExecuted(base: Shared, sh: Shared, i: nat)
    requires i < |base.status| == |sh.status| && Finished(sh.status[i])
    requires First(base, sh, i) ==> !base.status[i].status.Validated?
    requires First(base, sh, i) || Again(base, sh, i)
    ensures Rank(base, i) >= 1
  {
  }

  lemma AbortFacts(s: State, w: nat, sh': Shared, w': Worker)
    requires w < |s.ws| && s.ws[w].Valid? && ValStep(s, w, sh', w')
    requires !s.ws[w].val.Start? && !s.ws[w].val.Check? && !s.ws[w].val.Confirm? && !s.ws[w].val.Estimating?
    ensures |sh'.status| == |s.sh.status| && sh'.data == s.sh.data && sh'.lastReads == s.sh.lastReads
    ensures forall j :: 0 <= j < s.ws[w].tx ==> sh'.status[j] == s.sh.status[j]
    ensures sh'.executionIdx == s.sh.executionIdx
    ensures var i := s.ws[w].tx;
      match s.ws[w].val
      case Refute => Finished(s.sh.status[i]) ==> w' == Valid(i, ToEstimates)
      case ToEstimates => w'.Valid? && w'.tx == i && w'.val.Estimating?
      case MakeReady => w' == Valid(i, LowerAfterAbort) && sh'.status[i].status.ReadyToExecute?
      case LowerAfterAbort => w' == Valid(i, CompareExecution) && sh'.status == s.sh.status
      case CompareExecution => sh'.status == s.sh.status && (s.sh.executionIdx > i ==> w' == Valid(i, Retry))
      case Retry =>
        s.sh.status[i].status.ReadyToExecute? ==> w'.Exec? && w'.tx == i && w'.exec == Run([], map[])
      case _ => true
  {
    hide StatusFree, LocationsFree;
  }

  lemma AbortRounds(b: Block, base: Shared, s: State, w: nat, sh': Shared, w': Worker)
    requires w < |s.ws| && s.ws[w].Valid? && ValStep(s, w, sh', w')
    requires !s.ws[w].val.Start? && !s.ws[w].val.Check? && !s.ws[w].val.Confirm? && !s.ws[w].val.Estimating?
    requires |s.sh.status| == |base.status| && ValToward(base, s.sh, s.ws[w].tx, s.ws[w].val)
    ensures Toward(b, base, sh', w')
  {
    hide IsStale, Rank, FreshRun, ValStep, KeptBelow;
    var i := s.ws[w].tx;
    AbortFacts(s, w, sh', w');
    KeptOn(base, s.sh, sh', i);
    FreshStart(b, sh'.data, i);
  }

  lemma KeptOn(base: Shared, sh: Shared, sh': Shared, i: nat)
    requires KeptBelow(base, sh, i) && |sh'.status| == |sh.status| && sh'.data == sh.data
      && sh'.lastReads == sh.lastReads
    requires forall j :: 0 <= j < i ==> sh'.status[j].status == sh.status[j].status
    ensures KeptBelow(base, sh', i)
  {
    forall j: nat | j <= i ensures IsStale(sh', j) == IsStale(sh, j) {
      SameStale(sh, sh', j);
    }
    hide IsStale;
  }

  lemma EstimateRounds(b: Block, base: Shared, s: State, w: nat, sh': Shared, w': Worker)
    requires w < |s.ws| && s.ws[w].Valid? && s.ws[w].val.Estimating? && ValStep(s, w, sh', w')
    requires |s.sh.status| == |base.status| && ValToward(base, s.sh, s.ws[w].tx, s.ws[w].val)
    ensures Toward(b, base, sh', w')
  {
    var i, left := s.ws[w].tx, s.ws[w].val.left;
    if left != {} {
      var l :| l in left && sh' == EstimateAt(s.sh, i, l) && w' == Valid(i, Estimating(left - {l}));
      assert EntryChanged(s.sh, sh', i, l);
      EntryKept(base, s.sh, sh', i, l);
    }
    hide IsStale, Rank, KeptBelow;
  }

  /** Every step of a round leads on towards its end. */
  lemma RoundStep(b: Block, base: Shared, s: State, w: nat, s': State)
    requires Sound(b, s) && NoneDestroyed(s) && Tame(b) && Resting(s, w) && !s.sh.aborted && StepBy(b, s, w, s')
    requires s.ws[w] != Seek(Begin) && !s.ws[w].Left? && Toward(b, base, s.sh, s.ws[w])
    ensures Resting(s', w) && Toward(b, base, s'.sh, s'.ws[w])
  {
    RestingIsLone(s, w);
    assert Resting(s', w) by {
      hide WorkerStep;
    }
    if s.ws[w].Seek? {
      SeekRound(b, base, s, w, s');
    } else {
      TaskRound(b, base, s, w, s');
    }
  }

  lemma SeekRound(b: Block, base: Shared, s: State, w: nat, s': State)
    requires Sound(b, s) && Resting(s, w) && !s.sh.aborted && StepBy(b, s, w, s')
    requires s.ws[w].Seek? && !s.ws[w].seek.Begin? && Toward(b, base, s.sh, s.ws[w])
    ensures Toward(b, base, s'.sh, s'.ws[w])
  {
    hide SeekStep, ExecStep, ValStep, Owned, Versioned, Pending, Counted, Exits;
    var p := s.ws[w].seek;
    if p.LoadMinValidation? {
      NothingLeft(b, s, w);
    }
    if p.PeekValidation? && p.t < |s.sh.status| {
      NobodyExecutes(s, w, p.t);
    }
    hide Resting, Sound;
    SeekRounds(b, base, s, w, s'.sh, s'.ws[w]);
  }

  lemma TaskRound(b: Block, base: Shared, s: State, w: nat, s': State)
    requires Sound(b, s) && NoneDestroyed(s) && Tame(b) && Lone(s, w) && !s.sh.aborted && StepBy(b, s, w, s')
    requires (s.ws[w].Exec? || s.ws[w].Valid?) && Toward(b, base, s.sh, s.ws[w])
    ensures Toward(b, base, s'.sh, s'.ws[w])
  {
    assert Fits(s.sh, s.ws[w]) by {
      hide SeekStep, ExecStep, ValStep, Toward;
    }
    assert s.ws[w].Exec? ==> !s.ws[w].exec.Blocked?;
    hide SeekStep, ExecStep, ValStep, Owned, Versioned, Pending, Counted, Exits, Tame, Lone, NoneDestroyed, Fits,
      ExecToward, ValToward;
    match s.ws[w] {
      case Exec(_, _, e) =>
        if e.Run? {
          RunRounds(b, base, s, w, s'.sh, s'.ws[w]);
        } else if e.Record? {
          RecordRounds(b, base, s, w, s'.sh, s'.ws[w]);
        } else if e.Mark? {
          MarkRounds(b, base, s, w, s'.sh, s'.ws[w]);
        } else {
          FinishRounds(b, base, s, w, s'.sh, s'.ws[w]);
        }
      case Valid(_, v) =>
        if v.Start? || v.Check? {
          CheckRounds(b, base, s, w, s'.sh, s'.ws[w]);
        } else if v.Confirm? {
          ConfirmRounds(b, base, s, w, s'.sh, s'.ws[w]);
        } else if v.Estimating? {
          EstimateRounds(b, base, s, w, s'.sh, s'.ws[w]);
        } else {
          AbortRounds(b, base, s, w, s'.sh, s'.ws[w]);
        }
    }
  }
}
