/** When a run is aborted: exactly when some execution meets an error that waiting for an earlier
    transaction cannot repair. On a block without such transactions no run ever is. */
module Aborts {
  import opened Collections
  import opened MemoryModel
  import opened TransactionProgram
  import opened Protocol
  import opened Completion

  /** Worker `w` is about to meet an error: its transaction fails for good, is the first one and finds too little funds
      or too low a nonce, or reads an account that was destroyed. */
  ghost predicate Fails(b: Block, s: State, w: nat) {
    && w < |s.ws| && s.ws[w].Exec? && s.ws[w].exec.Run? && s.ws[w].tx < |b.txs|
    && match Next(b.txs[s.ws[w].tx], s.ws[w].exec.values)
       case Finish(o) => o.Fatal? || (o.NeedsEarlier? && s.ws[w].tx == 0)
       case Read(l) => ReadsDestroyed(b, s, s.ws[w].tx, s.ws[w].exec.readSet, l)
  }

  ghost predicate ReadsDestroyed(b: Block, s: State, i: nat, rs: ReadSet, l: Loc) {
    && Intercept(At(s.sh.data, l), i, b.isCode(l), if l in rs then Some(rs[l]) else None).Got?
    && InterceptedValue(At(s.sh.data, l), i, b.isCode(l), b.storage(l)).Destroyed?
  }

  // ---------------------------------------------------------------- the cause of an abort

  lemma RunRaises(b: Block, s: State, w: nat, sh': Shared, w': Worker)
    requires w < |s.ws| && s.ws[w].Exec? && s.ws[w].exec.Run? && ExecStep(b, s, w, sh', w')
    ensures w'.Raise? <==> Fails(b, s, w)
    ensures sh'.aborted == s.sh.aborted
  {
    hide Intercept, InterceptedValue;
  }

  lemma SeekDoesNotRaise(s: State, w: nat, sh': Shared, w': Worker)
    requires w < |s.ws| && s.ws[w].Seek? && SeekStep(s, w, sh', w')
    ensures !w'.Raise? && sh'.aborted == s.sh.aborted
  {
  }

  lemma FinishDoesNotRaise(b: Block, s: State, w: nat, sh': Shared, w': Worker)
    requires w < |s.ws| && s.ws[w].Exec? && !s.ws[w].exec.Run? && ExecStep(b, s, w, sh', w')
    ensures !w'.Raise? && sh'.aborted == s.sh.aborted
  {
    hide RunStep;
  }

  lemma ValDoesNotRaise(s: State, w: nat, sh': Shared, w': Worker)
    requires w < |s.ws| && s.ws[w].Valid? && ValStep(s, w, sh', w')
    ensures !w'.Raise? && sh'.aborted == s.sh.aborted
  {
  }

  /** In a run that nobody has aborted, a step dooms it if and only if the worker meets an error. */
  lemma StepDooms(b: Block, s: State, w: nat, s': State)
    requires !Doomed(s) && StepBy(b, s, w, s')
    ensures Doomed(s') <==> Fails(b, s, w)
  {
    hide SeekStep, ExecStep, ValStep, Fails;
    match s.ws[w] {
      case Seek(_) =>
        SeekDoesNotRaise(s, w, s'.sh, s'.ws[w]);
        NotRunning(b, s, w);
      case Exec(_, _, e) =>
        if e.Run? {
          RunRaises(b, s, w, s'.sh, s'.ws[w]);
        } else {
          FinishDoesNotRaise(b, s, w, s'.sh, s'.ws[w]);
          NotRunning(b, s, w);
        }
      case Valid(_, _) =>
        ValDoesNotRaise(s, w, s'.sh, s'.ws[w]);
        NotRunning(b, s, w);
      case Left => NotRunning(b, s, w);
    }
    assert forall u :: 0 <= u < |s.ws| && u != w ==> s'.ws[u] == s.ws[u];
  }

  lemma NotRunning(b: Block, s: State, w: nat)
    requires w < |s.ws| && !(s.ws[w].Exec? && s.ws[w].exec.Run?)
    ensures !Fails(b, s, w)
  {
  }

  /** A run is aborted, or about to be, if and only if some worker has met an error. */
  lemma {:induction false} DoomedHasCause(b: Block, run: seq<State>, movers: seq<nat>, k: nat)
    requires IsRun(b, run, movers) && k < |run|
    ensures Doomed(run[k]) <==> exists m: nat :: m < k && Fails(b, run[m], movers[m])
  {
    hide StepBy, Fails;
    if k == 0 {
      assert !Doomed(run[0]);
    } else {
      DoomedHasCause(b, run, movers, k - 1);
      assert StepBy(b, run[k - 1], movers[k - 1], run[k - 1 + 1]);
      if Doomed(run[k - 1]) {
        StepDoomed(b, run[k - 1], movers[k - 1], run[k]);
      } else {
        StepDooms(b, run[k - 1], movers[k - 1], run[k]);
      }
    }
  }

  // ---------------------------------------------------------------- blocks that are never aborted

  ghost predicate MildWrites(ws: map<Loc, MemoryValue>) {
    forall l :: l in ws ==> !ws[l].SelfDestructed?
  }

  /** No transaction fails for good, the first one never waits for an earlier one, and nothing is destroyed. */
  ghost predicate Harmless(b: Block) {
    && (forall l :: !b.storage(l).Destroyed?)
    && forall i: nat, h :: i < |b.txs| && Next(b.txs[i], h).Finish? ==> HarmlessOutcome(i, Next(b.txs[i], h).outcome)
  }

  ghost predicate HarmlessOutcome(i: nat, o: Outcome) {
    match o
    case Done(ws, _) => MildWrites(ws)
    case NeedsEarlier => i > 0
    case Fatal => false
  }

  ghost predicate MildData(data: map<Loc, Versions>) {
    forall l, j :: j in At(data, l) && At(data, l)[j].Data? ==> !At(data, l)[j].value.SelfDestructed?
  }

  ghost predicate MildWorker(w: Worker) {
    w.Exec? && w.exec.Record? ==> MildWrites(w.exec.out.writeSet)
  }

  /** No live entry says that an account was destroyed, and nobody is about to write one. */
  ghost predicate NoneDestroyed(s: State) {
    MildData(s.sh.data) && forall u :: 0 <= u < |s.ws| ==> MildWorker(s.ws[u])
  }

  lemma {:induction false} WalkNotDestroyed(m: Versions, i: nat, base: Value, sum: Sum)
    requires !base.Destroyed? && forall j :: j in m && m[j].Data? ==> !m[j].value.SelfDestructed?
    ensures !WalkFrom(m, i, base, sum).Destroyed?
    decreases i
  {
    if i != 0 && (i - 1 !in m || m[i - 1].Estimate?) {
      WalkNotDestroyed(m, i - 1, base, sum);
    } else if i != 0 && IsLazy(m[i - 1].value) {
      WalkNotDestroyed(m, i - 1, base, Accumulate(sum, m[i - 1].value));
    }
  }

  lemma DoesNotFail(b: Block, s: State, w: nat)
    requires Harmless(b) && NoneDestroyed(s)
    ensures !Fails(b, s, w)
  {
    forall l: Loc, i: nat ensures !InterceptedValue(At(s.sh.data, l), i, b.isCode(l), b.storage(l)).Destroyed? {
      WalkNotDestroyed(At(s.sh.data, l), i, b.storage(l), NO_UPDATES);
    }
    hide InterceptedValue, Intercept;
  }

  lemma MildSame(s: State, w: nat, s': State)
    requires NoneDestroyed(s) && w < |s.ws| == |s'.ws| && s'.ws == s.ws[w := s'.ws[w]]
    requires MildData(s'.sh.data) && MildWorker(s'.ws[w])
    ensures NoneDestroyed(s')
  {
  }

  lemma RunMild(b: Block, s: State, w: nat, sh': Shared, w': Worker)
    requires Harmless(b) && w < |s.ws| && s.ws[w].Exec? && s.ws[w].exec.Run? && ExecStep(b, s, w, sh', w')
    ensures sh'.data == s.sh.data && MildWorker(w')
  {
    hide Intercept, InterceptedValue;
  }

  lemma RecordMild(b: Block, s: State, w: nat, sh': Shared, w': Worker)
    requires w < |s.ws| && s.ws[w].Exec? && s.ws[w].exec.Record? && ExecStep(b, s, w, sh', w')
    requires MildData(s.sh.data) && MildWorker(s.ws[w])
    ensures MildData(sh'.data) && MildWorker(w')
  {
    var i, inc, e := s.ws[w].tx, s.ws[w].inc, s.ws[w].exec;
    if e.stale != {} {
      var l :| l in e.stale && sh' == ForgetAt(s.sh, i, l)
        && w' == Exec(i, inc, Record(e.out, e.stale - {l}, e.todo, e.wroteNew));
      ForgetMild(s.sh.data, l, i);
    } else if e.todo != {} {
      var l :| l in e.todo && l in e.out.writeSet && sh' == WriteAt(s.sh, i, l, Data(inc, e.out.writeSet[l]))
        && w' == Exec(i, inc, Record(e.out, e.stale, e.todo - {l}, e.wroteNew || l !in s.sh.lastWrites[i]));
      PutMild(s.sh.data, l, i, Data(inc, e.out.writeSet[l]));
    }
  }

  lemma ForgetMild(data: map<Loc, Versions>, l: Loc, i: nat)
    requires MildData(data)
    ensures MildData(Drop(data, l, i))
  {
    var data' := Drop(data, l, i);
    forall k, j | j in At(data', k) && At(data', k)[j].Data? ensures !At(data', k)[j].value.SelfDestructed? {
      assert At(data', k)[j] == At(data, k)[j];
    }
  }

  lemma PutMild(data: map<Loc, Versions>, l: Loc, i: nat, e: MemoryEntry)
    requires MildData(data) && (e.Data? ==> !e.value.SelfDestructed?)
    ensures MildData(Put(data, l, i, e))
  {
    var data' := Put(data, l, i, e);
    forall k, j | j in At(data', k) && At(data', k)[j].Data? ensures !At(data', k)[j].value.SelfDestructed? {
      assert (k == l && j == i) || At(data', k)[j] == At(data, k)[j];
    }
  }

  lemma OtherMild(b: Block, s: State, w: nat, sh': Shared, w': Worker)
    requires w < |s.ws| && WorkerStep(b, s, w, sh', w') && !s.ws[w].Valid?
      && !(s.ws[w].Exec? && (s.ws[w].exec.Run? || s.ws[w].exec.Record?))
    ensures sh'.data == s.sh.data && MildWorker(w')
  {
    hide RunStep, ValStep;
  }

  lemma ValMild(s: State, w: nat, sh': Shared, w': Worker)
    requires w < |s.ws| && s.ws[w].Valid? && ValStep(s, w, sh', w') && MildData(s.sh.data)
    ensures MildData(sh'.data) && MildWorker(w')
  {
    var i := s.ws[w].tx;
    if s.ws[w].val.Estimating? && s.ws[w].val.left != {} {
      var l :| l in s.ws[w].val.left && sh' == EstimateAt(s.sh, i, l);
      PutMild(s.sh.data, l, i, Estimate);
    } else {
      assert sh'.data == s.sh.data;
    }
  }

  lemma StepMild(b: Block, s: State, w: nat, s': State)
    requires Harmless(b) && NoneDestroyed(s) && StepBy(b, s, w, s')
    ensures NoneDestroyed(s')
  {
    hide SeekStep, ExecStep, ValStep, MildData, MildWorker, Harmless;
    if WorkerStep(b, s, w, s'.sh, s'.ws[w]) {
      if s.ws[w].Exec? && s.ws[w].exec.Run? {
        RunMild(b, s, w, s'.sh, s'.ws[w]);
      } else if s.ws[w].Exec? && s.ws[w].exec.Record? {
        RecordMild(b, s, w, s'.sh, s'.ws[w]);
      } else if s.ws[w].Valid? {
        ValMild(s, w, s'.sh, s'.ws[w]);
      } else {
        OtherMild(b, s, w, s'.sh, s'.ws[w]);
      }
    } else {
      LeftIsMild(s'.ws[w]);
    }
    MildSame(s, w, s');
  }

  lemma LeftIsMild(w: Worker)
    requires w.Left?
    ensures MildWorker(w)
  {
  }

  lemma {:induction false} RunMildly(b: Block, run: seq<State>, movers: seq<nat>, k: nat)
    requires IsRun(b, run, movers) && Harmless(b) && k < |run|
    ensures NoneDestroyed(run[k])
  {
    hide StepBy, Harmless;
    if k == 0 {
      assert Init(b, run[0]);
    } else {
      RunMildly(b, run, movers, k - 1);
      assert StepBy(b, run[k - 1], movers[k - 1], run[k - 1 + 1]);
      StepMild(b, run[k - 1], movers[k - 1], run[k]);
    }
  }

  /** No run of a harmless block is ever aborted, whatever the workers do. */
  lemma NeverAborted(b: Block, run: seq<State>, movers: seq<nat>, k: nat)
    requires IsRun(b, run, movers) && Harmless(b) && k < |run|
    ensures !Doomed(run[k])
  {
    hide StepBy, Harmless, Fails, NoneDestroyed, Doomed;
    DoomedHasCause(b, run, movers, k);
    forall m: nat | m < k ensures !Fails(b, run[m], movers[m]) {
      RunMildly(b, run, movers, m);
      DoesNotFail(b, run[m], movers[m]);
    }
  }
}
