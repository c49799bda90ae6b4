/** Every step keeps the memory invariant. */
module VersionsSteps {
  import opened Collections
  import opened MemoryModel
  import opened TransactionProgram
  import opened Protocol
  import opened Ownership
  import opened VersionsInvariant

  ghost predicate SameMemory(sh: Shared, sh': Shared) {
    && sh'.data == sh.data && sh'.lastReads == sh.lastReads && sh'.lastWrites == sh.lastWrites
    && sh'.results == sh.results && sh'.history == sh.history
  }

  lemma NothingBeyond(s: State, w: nat)
    requires Owned(s)
    ensures !Elsewhere(s, w, |s.sh.status|)
  {
    forall u | 0 <= u < |s.ws| ensures !Owns(s.ws[u], |s.sh.status|) {
      assert Fits(s.sh, s.ws[u]);
    }
  }

  /** The memory is untouched and at most one status, that of `c`, changes. */
  lemma MemoryKept(b: Block, s: State, s': State, w: nat, c: nat)
    requires Sizes(b, s) && Sizes(b, s') && Versioned(b, s) && Owned(s) && OnlyMoved(s, s', w, c)
    requires SameMemory(s.sh, s'.sh) && !Elsewhere(s, w, c)
    requires c < |s.sh.status| ==>
      || s'.sh.status[c].incarnation > s.sh.status[c].incarnation
      || (s'.sh.status[c].incarnation == s.sh.status[c].incarnation && !s'.sh.status[c].status.ReadyToExecute?)
    requires c < |s.sh.status| ==> TxStored(b, s'.sh, c)
    requires Stored(b, s'.sh, s'.ws[w])
    requires forall j: nat, d: nat :: Waits(s'.sh, j, d) ==> (Waits(s.sh, j, d) && d != c) || OnlyEstimates(b, s'.sh, d)
    ensures Versioned(b, s')
  {
    var n := |s.sh.status|;
    NothingBeyond(s, w);
    HistoryStable(b, s.sh, s'.sh, n, c);
    forall j: nat, d: nat | Waits(s'.sh, j, d)
      ensures (Waits(s.sh, j, d) && d != n && d != c) || OnlyEstimates(b, s'.sh, d) {
      if Waits(s.sh, j, d) {
        assert d < n;
      }
    }
    VersionsKept(b, s, s', w, n, c);
  }

  /** The worker moves on; statuses, dependents and memory are untouched. */
  lemma StillVersioned(b: Block, s: State, s': State, w: nat)
    requires Sizes(b, s) && Sizes(b, s') && Versioned(b, s) && Owned(s)
    requires w < |s.ws| == |s'.ws| && s'.ws == s.ws[w := s'.ws[w]]
    requires SameMemory(s.sh, s'.sh) && s'.sh.status == s.sh.status && s'.sh.dependents == s.sh.dependents
    requires Stored(b, s'.sh, s'.ws[w])
    ensures Versioned(b, s')
  {
    var n := |s.sh.status|;
    NothingBeyond(s, w);
    forall j: nat, d: nat | Waits(s'.sh, j, d) ensures Waits(s.sh, j, d) && d != n {
      assert Waits(s.sh, j, d);
    }
    MemoryKept(b, s, s', w, n);
  }

  /** A ready transaction starts from estimates only, with a version never recorded. */
  lemma TakenVersioned(b: Block, s: State, s': State, w: nat, i: nat)
    requires Sizes(b, s) && Sizes(b, s') && Versioned(b, s) && Owned(s)
    requires w < |s.ws| == |s'.ws| && s'.ws == s.ws[w := s'.ws[w]]
    requires i < |s.sh.status| && s.sh.status[i].status.ReadyToExecute?
    requires s'.sh == SetStatus(s.sh, i, Executing) && s'.ws[w] == StartRun(s.sh, i)
    ensures Versioned(b, s')
  {
    Unowned(s, i);
    assert TxStored(b, s.sh, i);
    assert OnlyEstimates(b, s'.sh, i);
    forall j: nat, d: nat | Waits(s'.sh, j, d) ensures Waits(s.sh, j, d) && d != i {
      assert Waits(s.sh, j, d);
    }
    MemoryKept(b, s, s', w, i);
  }

  lemma SeekVersioned(b: Block, s: State, w: nat, s': State)
    requires Sizes(b, s) && Sizes(b, s') && Versioned(b, s) && Owned(s) && StepBy(b, s, w, s') && !s.sh.aborted
      && s.ws[w].Seek?
    ensures Versioned(b, s')
  {
    hide OnlyEstimates;
    var k := s.ws[w].seek;
    if k.PeekValidation? && s.sh.status[k.t].status.ReadyToExecute? {
      TakenVersioned(b, s, s', w, k.t);
    } else if k.PeekExecution? && s.sh.status[k.t].status.ReadyToExecute? {
      TakenVersioned(b, s, s', w, k.t);
    } else {
      StillVersioned(b, s, s', w);
    }
  }

  // ---------------------------------------------------------------- executing

  lemma ReadVersioned(b: Block, s: State, w: nat, s': State)
    requires Sizes(b, s) && Sizes(b, s') && Versioned(b, s) && Owned(s) && StepBy(b, s, w, s') && !s.sh.aborted
    requires s.ws[w].Exec? && s.ws[w].exec.Run? && !s'.ws[w].Raise? && s'.sh == s.sh
    ensures Versioned(b, s')
  {
    hide OneOwner, SomeOwner, HistoryOk;
    var i, values, rs := s.ws[w].tx, s.ws[w].exec.values, s.ws[w].exec.readSet;
    assert Stored(b, s.sh, s.ws[w]) && Fits(s.sh, s.ws[w]);
    var a := Next(b.txs[i], values);
    if a.Read? {
      LogExtended(b, s.sh.history, i, values, rs, a.loc, At(s.sh.data, a.loc));
    }
    StillVersioned(b, s, s', w);
  }

  /** `record` begins: the incarnation enters the history and becomes the last read set. */
  lemma BeginRecordVersioned(b: Block, s: State, s': State, w: nat, ws: map<Loc, MemoryValue>, r: nat)
    requires Sizes(b, s) && Sizes(b, s') && Versioned(b, s) && Owned(s)
    requires w < |s.ws| == |s'.ws| && s'.ws == s.ws[w := s'.ws[w]] && s.ws[w].Exec? && s.ws[w].exec.Run?
    requires s.ws[w].tx < |b.txs| && Next(b.txs[s.ws[w].tx], s.ws[w].exec.values) == Finish(Done(ws, r))
    requires var i, inc, rs := s.ws[w].tx, s.ws[w].inc, s.ws[w].exec.readSet;
      && s'.sh == s.sh.(lastReads := s.sh.lastReads[i := rs], history := s.sh.history[(i, inc) := Execution(rs, ws, r)])
      && s'.ws[w] == Exec(i, inc, Record(Execution(rs, ws, r), s.sh.lastWrites[i] - ws.Keys, ws.Keys, false))
    ensures Versioned(b, s')
  {
    hide DependentsFit;
    var i, inc, rs := s.ws[w].tx, s.ws[w].inc, s.ws[w].exec.readSet;
    var n := |s.sh.status|;
    assert Stored(b, s.sh, s.ws[w]) && Fits(s.sh, s.ws[w]) && Owns(s.ws[w], i);
    NothingBeyond(s, w);
    LogFinished(b, s.sh.history, i, s.ws[w].exec.values, rs, ws, r);
    assert Grows(s.sh.history, s'.sh.history, i);
    HistoryStable(b, s.sh, s'.sh, i, n);
    forall l ensures Agrees(s'.sh.history, l, At(s'.sh.data, l)) {
      assert Agrees(s.sh.history, l, At(s.sh.data, l));
    }
    assert RecordFits(b, s'.sh, i, inc, Execution(rs, ws, r), s.sh.lastWrites[i] - ws.Keys, ws.Keys);
    forall j: nat, d: nat | Waits(s'.sh, j, d) ensures Waits(s.sh, j, d) && d != i && d != n {
      assert Waits(s.sh, j, d);
    }
    VersionsKept(b, s, s', w, i, n);
  }

  /** One location of `record` is dropped or written: only the entry of `i` there changes. */
  lemma EntryVersioned(b: Block, s: State, s': State, w: nat, i: nat, l: Loc)
    requires Sizes(b, s) && Sizes(b, s') && Versioned(b, s) && Owned(s)
    requires w < |s.ws| == |s'.ws| && s'.ws == s.ws[w := s'.ws[w]] && Owns(s.ws[w], i) && i < |s.sh.status|
    requires s'.sh.status == s.sh.status && s'.sh.dependents == s.sh.dependents && s'.sh.history == s.sh.history
      && s'.sh.results == s.sh.results
    requires forall j :: 0 <= j < |s.sh.status| && j != i ==>
      s'.sh.lastReads[j] == s.sh.lastReads[j] && s'.sh.lastWrites[j] == s.sh.lastWrites[j]
    requires forall k, j: nat :: k != l || j != i ==>
      (j in At(s'.sh.data, k) <==> j in At(s.sh.data, k))
        && (j in At(s.sh.data, k) ==> At(s'.sh.data, k)[j] == At(s.sh.data, k)[j])
    requires i in At(s'.sh.data, l) && At(s'.sh.data, l)[i].Data? ==>
      (i, At(s'.sh.data, l)[i].incarnation) in s.sh.history
        && l in s.sh.history[(i, At(s'.sh.data, l)[i].incarnation)].writeSet &&
      At(s'.sh.data, l)[i].value == s.sh.history[(i, At(s'.sh.data, l)[i].incarnation)].writeSet[l]
    requires Stored(b, s'.sh, s'.ws[w])
    ensures Versioned(b, s')
  {
    var n := |s.sh.status|;
    assert Fits(s.sh, s.ws[w]);
    NothingBeyond(s, w);
    HistoryStable(b, s.sh, s'.sh, i, n);
    forall k ensures Agrees(s'.sh.history, k, At(s'.sh.data, k)) {
      assert Agrees(s.sh.history, k, At(s.sh.data, k));
    }
    forall j: nat | j < n && j != i ensures SameTx(s.sh, s'.sh, j) {}
    forall j: nat, d: nat | Waits(s'.sh, j, d) ensures Waits(s.sh, j, d) && d != i && d != n {
      assert Waits(s.sh, j, d);
    }
    VersionsKept(b, s, s', w, i, n);
  }

  lemma ForgetVersioned(b: Block, s: State, s': State, w: nat, l: Loc)
    requires Sizes(b, s) && Sizes(b, s') && Versioned(b, s) && Owned(s)
    requires w < |s.ws| == |s'.ws| && s'.ws == s.ws[w := s'.ws[w]] && s.ws[w].Exec? && s.ws[w].exec.Record?
    requires s.ws[w].tx < |s.sh.lastWrites| && l in s.ws[w].exec.stale && s'.sh == ForgetAt(s.sh, s.ws[w].tx, l)
    requires s'.ws[w] == s.ws[w].(exec := s.ws[w].exec.(stale := s.ws[w].exec.stale - {l}))
    ensures Versioned(b, s')
  {
    var i, inc, e := s.ws[w].tx, s.ws[w].inc, s.ws[w].exec;
    assert Stored(b, s.sh, s.ws[w]) && Fits(s.sh, s.ws[w]) && Owns(s.ws[w], i);
    assert i !in At(s'.sh.data, l);
    ForgetFits(b, s.sh, i, inc, e.out, e.stale, e.todo, l);
    EntryVersioned(b, s, s', w, i, l);
  }

  lemma ForgetFits(b: Block, sh: Shared, i: nat, inc: nat, out: Execution, stale: set<Loc>, todo: set<Loc>, l: Loc)
    requires RecordFits(b, sh, i, inc, out, stale, todo) && l in stale && i < |sh.lastWrites|
    ensures RecordFits(b, ForgetAt(sh, i, l), i, inc, out, stale - {l}, todo)
  {
  }

  lemma WriteFits(b: Block, sh: Shared, i: nat, inc: nat, out: Execution, todo: set<Loc>, l: Loc)
    requires RecordFits(b, sh, i, inc, out, {}, todo) && l in todo && l in out.writeSet && i < |sh.lastWrites|
    ensures RecordFits(b, WriteAt(sh, i, l, Data(inc, out.writeSet[l])), i, inc, out, {}, todo - {l})
  {
  }

  lemma WriteVersioned(b: Block, s: State, s': State, w: nat, l: Loc)
    requires Sizes(b, s) && Sizes(b, s') && Versioned(b, s) && Owned(s)
    requires w < |s.ws| == |s'.ws| && s'.ws == s.ws[w := s'.ws[w]] && s.ws[w].Exec? && s.ws[w].exec.Record?
    requires s.ws[w].tx < |s.sh.lastWrites| && l in s.ws[w].exec.todo && s.ws[w].exec.stale == {}
      && l in s.ws[w].exec.out.writeSet
    requires s'.sh == WriteAt(s.sh, s.ws[w].tx, l, Data(s.ws[w].inc, s.ws[w].exec.out.writeSet[l]))
    requires s'.ws[w].Exec? && s'.ws[w].tx == s.ws[w].tx && s'.ws[w].inc == s.ws[w].inc && s'.ws[w].exec.Record?
    requires s'.ws[w].exec.out == s.ws[w].exec.out && s'.ws[w].exec.stale == {}
      && s'.ws[w].exec.todo == s.ws[w].exec.todo - {l}
    ensures Versioned(b, s')
  {
    var i, inc, e := s.ws[w].tx, s.ws[w].inc, s.ws[w].exec;
    assert Stored(b, s.sh, s.ws[w]) && Fits(s.sh, s.ws[w]) && Owns(s.ws[w], i);
    WriteFits(b, s.sh, i, inc, e.out, e.todo, l);
    EntryVersioned(b, s, s', w, i, l);
  }

  /** After `record` the entries of a transaction are exactly its latest write set. */
  lemma EndRecord(b: Block, sh: Shared, i: nat, inc: nat, out: Execution)
    requires RecordFits(b, sh, i, inc, out, {}, {}) && i < |sh.status| == |sh.lastWrites|
      && sh.status[i].incarnation == inc
    ensures Entries(sh, i, {}) && Last(sh, i) == out
  {
    assert sh.lastWrites[i] == out.writeSet.Keys;
  }

  lemma RecordVersioned(b: Block, s: State, w: nat, s': State)
    requires Sizes(b, s) && Sizes(b, s') && Versioned(b, s) && Owned(s) && StepBy(b, s, w, s') && !s.sh.aborted
    requires s.ws[w].Exec? && s.ws[w].exec.Record?
    ensures Versioned(b, s')
  {
    hide DependentsFit, SomeOwner, TxStored;
    var i, inc, e := s.ws[w].tx, s.ws[w].inc, s.ws[w].exec;
    assert Stored(b, s.sh, s.ws[w]) && Fits(s.sh, s.ws[w]);
    if e.stale != {} {
      var l :| l in e.stale && s'.sh == ForgetAt(s.sh, i, l)
        && s'.ws[w] == Exec(i, inc, Record(e.out, e.stale - {l}, e.todo, e.wroteNew));
      ForgetVersioned(b, s, s', w, l);
    } else if e.todo != {} {
      var l :| l in e.todo && l in e.out.writeSet && s'.sh == WriteAt(s.sh, i, l, Data(inc, e.out.writeSet[l]))
               && s'.ws[w] == Exec(i, inc, Record(e.out, e.stale, e.todo - {l}, e.wroteNew
                  || l !in s.sh.lastWrites[i]));
      WriteVersioned(b, s, s', w, l);
    } else {
      EndRecord(b, s.sh, i, inc, e.out);
      StillVersioned(b, s, s', w);
    }
  }

  lemma SaveVersioned(b: Block, s: State, s': State, w: nat)
    requires Sizes(b, s) && Sizes(b, s') && Versioned(b, s) && Owned(s)
    requires w < |s.ws| == |s'.ws| && s'.ws == s.ws[w := s'.ws[w]] && s.ws[w].Exec? && s.ws[w].exec.Save?
      && s.ws[w].tx < |s.sh.results|
    requires s'.sh == s.sh.(results := s.sh.results[s.ws[w].tx := Some(s.ws[w].exec.result)])
    requires s'.ws[w] == s.ws[w].(exec := Lock(s.ws[w].exec.wroteNew))
    ensures Versioned(b, s')
  {
    hide DependentsFit, Agrees;
    var i, n := s.ws[w].tx, |s.sh.status|;
    assert Stored(b, s.sh, s.ws[w]) && Fits(s.sh, s.ws[w]) && Owns(s.ws[w], i);
    NothingBeyond(s, w);
    HistoryStable(b, s.sh, s'.sh, i, n);
    forall j: nat, d: nat | Waits(s'.sh, j, d) ensures Waits(s.sh, j, d) && d != i && d != n {
      assert Waits(s.sh, j, d);
    }
    VersionsKept(b, s, s', w, i, n);
  }

  lemma HandoverVersioned(b: Block, s: State, w: nat, s': State)
    requires Sizes(b, s) && Sizes(b, s') && Versioned(b, s) && Owned(s) && StepBy(b, s, w, s') && !s.sh.aborted
      && s.ws[w].Exec?
    requires s.ws[w].exec.Blocked? || s.ws[w].exec.Lock? || s.ws[w].exec.Resume? || s.ws[w].exec.Mark?
    ensures Versioned(b, s')
  {
    var i, e := s.ws[w].tx, s.ws[w].exec;
    assert Stored(b, s.sh, s.ws[w]) && Fits(s.sh, s.ws[w]) && Owns(s.ws[w], i);
    if (e.Blocked? && Finished(s.sh.status[e.on])) || (e.Resume? && e.rest == []) {
      StillVersioned(b, s, s', w);
    } else {
      HandoverMemory(b, s, w, s');
    }
  }

  lemma HandoverMemory(b: Block, s: State, w: nat, s': State)
    requires Sizes(b, s) && Sizes(b, s') && Versioned(b, s) && Owned(s) && StepBy(b, s, w, s') && !s.sh.aborted
      && s.ws[w].Exec?
    requires s.ws[w].exec.Blocked? || s.ws[w].exec.Lock? || s.ws[w].exec.Resume? || s.ws[w].exec.Mark?
    requires s.ws[w].exec.Resume? ==> s.ws[w].exec.rest != []
    requires s.ws[w].exec.Blocked? ==> s.ws[w].exec.on < |s.sh.status| && !Finished(s.sh.status[s.ws[w].exec.on])
    ensures Versioned(b, s')
  {
    hide DependentsFit;
    var i, e := s.ws[w].tx, s.ws[w].exec;
    assert Stored(b, s.sh, s.ws[w]) && Fits(s.sh, s.ws[w]) && Owns(s.ws[w], i);
    match e
    case Blocked(j) =>
      assert OnlyEstimates(b, s'.sh, i);
      forall k: nat, d: nat | Waits(s'.sh, k, d) ensures (Waits(s.sh, k, d) && d != i) || OnlyEstimates(b, s'.sh, d) {
        if d != i {
          assert Waits(s.sh, k, d);
        }
      }
      MemoryKept(b, s, s', w, i);
    case Lock(_) => DrainedVersioned(b, s, s', w, i);
    case Resume(rest, _) => ResumedVersioned(b, s, s', w, rest[0]);
    case Mark(_) =>
      forall k: nat, d: nat | Waits(s'.sh, k, d) ensures Waits(s.sh, k, d) && d != i {
        assert Waits(s.sh, k, d);
      }
      MemoryKept(b, s, s', w, i);
  }

  /** The drained dependents hold only estimates. */
  lemma DrainedVersioned(b: Block, s: State, s': State, w: nat, i: nat)
    requires Sizes(b, s) && Sizes(b, s') && Versioned(b, s) && Owned(s)
    requires w < |s.ws| == |s'.ws| && s'.ws == s.ws[w := s'.ws[w]] && s.ws[w].Exec? && s.ws[w].tx == i
      && s.ws[w].exec.Lock?
    requires i < |s.sh.dependents| && s'.sh == s.sh.(dependents := s.sh.dependents[i := []])
    requires s'.ws[w] == s.ws[w].(exec := Resume(s.sh.dependents[i], s.ws[w].exec.wroteNew))
    ensures Versioned(b, s')
  {
    var n := |s.sh.status|;
    assert Stored(b, s.sh, s.ws[w]);
    NothingBeyond(s, w);
    forall d: nat | Carries(s'.ws[w], d) ensures OnlyEstimates(b, s'.sh, d) {
      assert Waits(s.sh, i, d);
    }
    forall k: nat, d: nat | Waits(s'.sh, k, d) ensures Waits(s.sh, k, d) && d != n {
      assert Waits(s.sh, k, d);
    }
    MemoryKept(b, s, s', w, n);
  }

  lemma ResumedVersioned(b: Block, s: State, s': State, w: nat, c: nat)
    requires Sizes(b, s) && Sizes(b, s') && Versioned(b, s) && Owned(s)
    requires w < |s.ws| == |s'.ws| && s'.ws == s.ws[w := s'.ws[w]] && s.ws[w].Exec? && s.ws[w].exec.Resume?
    requires s.ws[w].exec.rest != [] && s.ws[w].exec.rest[0] == c && c < |s.sh.status| && s'.sh == SetReady(s.sh, c)
    requires s'.ws[w] == s.ws[w].(exec := LowerExecution(c, s.ws[w].exec.rest[1..], s.ws[w].exec.wroteNew))
    ensures Versioned(b, s')
  {
    assert Stored(b, s.sh, s.ws[w]) && Carries(s.ws[w], c) && Owns(s.ws[w], c);
    forall k: nat, d: nat | Waits(s'.sh, k, d) ensures Waits(s.sh, k, d) && d != c {
      assert Waits(s.sh, k, d);
    }
    ResumedStored(b, s, w, s');
    MemoryKept(b, s, s', w, c);
  }

  /** Making a dependent ready does not disturb the finishing transaction. */
  lemma ResumedStored(b: Block, s: State, w: nat, s': State)
    requires Sizes(b, s) && Sizes(b, s') && Versioned(b, s) && Owned(s)
    requires w < |s.ws| == |s'.ws| && s.ws[w].Exec? && s.ws[w].exec.Resume? && s.ws[w].exec.rest != []
    requires s.ws[w].exec.rest[0] < |s.sh.status| && s'.sh == SetReady(s.sh, s.ws[w].exec.rest[0])
    requires s'.ws[w] == s.ws[w].(exec :=
      LowerExecution(s.ws[w].exec.rest[0], s.ws[w].exec.rest[1..], s.ws[w].exec.wroteNew))
    ensures Stored(b, s'.sh, s'.ws[w])
  {
    var i := s.ws[w].tx;
    assert Stored(b, s.sh, s.ws[w]) && Fits(s.sh, s.ws[w]);
    assert SameTx(s.sh, s'.sh, i);
    TxFrame(b, s.sh, s'.sh, i, |s.sh.status|, {});
    forall d: nat | Carries(s'.ws[w], d) ensures OnlyEstimates(b, s'.sh, d) {
      assert Carries(s.ws[w], d);
    }
  }

  lemma ExecVersioned(b: Block, s: State, w: nat, s': State)
    requires Sizes(b, s) && Sizes(b, s') && Versioned(b, s) && Owned(s) && StepBy(b, s, w, s') && !s.sh.aborted
    requires s.ws[w].Exec? && !s'.ws[w].Raise?
    ensures Versioned(b, s')
  {
    match s.ws[w].exec
    case Run(values, _) =>
      var a := Next(b.txs[s.ws[w].tx], values);
      if a.Finish? && a.outcome.Done? {
        BeginRecordVersioned(b, s, s', w, a.outcome.writeSet, a.outcome.result);
      } else {
        ReadVersioned(b, s, w, s');
      }
    case Record(_, _, _, _) => RecordVersioned(b, s, w, s');
    case Save(_, _) => SaveVersioned(b, s, s', w);
    case Blocked(_) => HandoverVersioned(b, s, w, s');
    case Lock(_) => HandoverVersioned(b, s, w, s');
    case Resume(_, _) => HandoverVersioned(b, s, w, s');
    case Mark(_) => HandoverVersioned(b, s, w, s');
    case _ => CountersVersioned(b, s, w, s');
  }

  lemma CountersVersioned(b: Block, s: State, w: nat, s': State)
    requires Sizes(b, s) && Sizes(b, s') && Versioned(b, s) && Owned(s) && StepBy(b, s, w, s') && !s.sh.aborted
      && s.ws[w].Exec?
    requires s.ws[w].exec.LowerExecution? || s.ws[w].exec.LowerMinValidation?
             || s.ws[w].exec.CompareValidation? || s.ws[w].exec.LowerValidation?
    ensures Versioned(b, s')
  {
    hide SomeOwner;
    assert Stored(b, s.sh, s.ws[w]) && Fits(s.sh, s.ws[w]);
    forall d: nat | Carries(s'.ws[w], d) ensures Carries(s.ws[w], d) {}
    StillVersioned(b, s, s', w);
  }

  // ---------------------------------------------------------------- validating

  lemma EstimateVersioned(b: Block, s: State, s': State, w: nat, l: Loc)
    requires Sizes(b, s) && Sizes(b, s') && Versioned(b, s) && Owned(s)
    requires w < |s.ws| == |s'.ws| && s'.ws == s.ws[w := s'.ws[w]] && s.ws[w].Valid? && s.ws[w].val.Estimating?
    requires l in s.ws[w].val.left && s'.sh == EstimateAt(s.sh, s.ws[w].tx, l)
    requires s'.ws[w] == s.ws[w].(val := Estimating(s.ws[w].val.left - {l}))
    ensures Versioned(b, s')
  {
    hide DependentsFit, SomeOwner, Agrees;
    var i, left := s.ws[w].tx, s.ws[w].val.left;
    assert Stored(b, s.sh, s.ws[w]) && Fits(s.sh, s.ws[w]) && Owns(s.ws[w], i);
    assert i in At(s.sh.data, l);
    assert Entries(s'.sh, i, s.sh.lastWrites[i] - (left - {l}));
    EntryVersioned(b, s, s', w, i, l);
  }

  lemma AllEstimated(b: Block, sh: Shared, i: nat)
    requires Recorded(sh, i) && Entries(sh, i, sh.lastWrites[i]) && |b.estimates| == |sh.lastWrites|
    ensures OnlyEstimates(b, sh, i)
  {
  }

  lemma ValVersioned(b: Block, s: State, w: nat, s': State)
    requires Sizes(b, s) && Sizes(b, s') && Versioned(b, s) && Owned(s) && StepBy(b, s, w, s') && !s.sh.aborted
      && s.ws[w].Valid?
    ensures Versioned(b, s')
  {
    hide Versioned, DependentsFit, OneOwner, SomeOwner;
    var i, v := s.ws[w].tx, s.ws[w].val;
    match v
    case Refute => JudgedVersioned(b, s, w, s');
    case Confirm => JudgedVersioned(b, s, w, s');
    case ToEstimates => EstimatesVersioned(b, s, w, s');
    case Estimating(_) => EstimatesVersioned(b, s, w, s');
    case MakeReady => JudgedVersioned(b, s, w, s');
    case Retry =>
      if s.sh.status[i].status.ReadyToExecute? {
        TakenVersioned(b, s, s', w, i);
      } else {
        StillVersioned(b, s, s', w);
      }
    case _ => StillVersioned(b, s, s', w);
  }

  lemma EstimatesVersioned(b: Block, s: State, w: nat, s': State)
    requires Sizes(b, s) && Sizes(b, s') && Versioned(b, s) && Owned(s) && StepBy(b, s, w, s') && !s.sh.aborted
      && s.ws[w].Valid?
    requires s.ws[w].val.ToEstimates? || s.ws[w].val.Estimating?
    ensures Versioned(b, s')
  {
    hide DependentsFit, OneOwner, SomeOwner, HistoryOk, TxStored;
    var i, v := s.ws[w].tx, s.ws[w].val;
    assert Stored(b, s.sh, s.ws[w]) && Fits(s.sh, s.ws[w]);
    if v.ToEstimates? {
      assert s.sh.lastWrites[i] - s.sh.lastWrites[i] == {};
      StillVersioned(b, s, s', w);
    } else if v.left == {} {
      assert s.sh.lastWrites[i] - v.left == s.sh.lastWrites[i];
      AllEstimated(b, s.sh, i);
      StillVersioned(b, s, s', w);
    } else {
      var l :| l in v.left && s'.sh == EstimateAt(s.sh, i, l) && s'.ws[w] == Valid(i, Estimating(v.left - {l}));
      EstimateVersioned(b, s, s', w, l);
    }
  }

  /** Verdicts change a status and leave the memory alone. */
  lemma JudgedVersioned(b: Block, s: State, w: nat, s': State)
    requires Sizes(b, s) && Sizes(b, s') && Versioned(b, s) && Owned(s) && StepBy(b, s, w, s') && !s.sh.aborted
      && s.ws[w].Valid?
    requires s.ws[w].val.Refute? || s.ws[w].val.Confirm? || s.ws[w].val.MakeReady?
    ensures Versioned(b, s')
  {
    hide SomeOwner;
    var i := s.ws[w].tx;
    assert Stored(b, s.sh, s.ws[w]) && Fits(s.sh, s.ws[w]) && TxStored(b, s.sh, i);
    if s.ws[w].val.MakeReady? {
      assert Owns(s.ws[w], i);
    } else if Finished(s.sh.status[i]) {
      Unowned(s, i);
    }
    forall k: nat, d: nat | Waits(s'.sh, k, d) ensures Waits(s.sh, k, d) {
      assert s'.sh.dependents == s.sh.dependents;
    }
    if s'.sh.status == s.sh.status {
      StillVersioned(b, s, s', w);
    } else {
      MemoryKept(b, s, s', w, i);
    }
  }

  /** No step of any worker breaks the memory invariant, as long as the run is not aborted. */
  lemma StepVersioned(b: Block, s: State, w: nat, s': State)
    requires Sizes(b, s) && Sizes(b, s') && Versioned(b, s) && Owned(s) && StepBy(b, s, w, s') && !s'.sh.aborted
      && !s'.ws[w].Raise?
    ensures Versioned(b, s')
  {
    hide DependentsFit, SomeOwner, Versioned;
    match s.ws[w]
    case Seek(_) => SeekVersioned(b, s, w, s');
    case Exec(_, _, _) => ExecVersioned(b, s, w, s');
    case Valid(_, _) => ValVersioned(b, s, w, s');
    case _ =>
  }
}
