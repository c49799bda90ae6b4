/** What the multi-version memory holds: the entries of a finished transaction are
    exactly its last recorded write set, those of an unfinished one are estimates, and
    every recorded incarnation is the outcome of its program on the values its read
    origins stand for. */
module VersionsInvariant {
  import opened Collections
  import opened MemoryModel
  import opened TransactionProgram
  import opened Protocol
  import opened Ownership

  // ---------------------------------------------------------------- recorded incarnations

  ghost predicate ReadsOk(h: History, i: nat, rs: ReadSet) {
    forall l :: l in rs ==> OriginsOk(h, l, i, rs[l])
  }

  /** The values that the origins of a read set stand for. */
  ghost function Answers(b: Block, h: History, i: nat, rs: ReadSet): map<Loc, Value>
    requires ReadsOk(h, i, rs)
  {
    map l | l in rs :: Eval(h, l, i, rs[l], b.storage(l))
  }

  /** A partial execution got every value from the origins it recorded. */
  ghost predicate LogOk(b: Block, h: History, i: nat, values: seq<Value>, rs: ReadSet)
    requires i < |b.txs|
  {
    ReadsOk(h, i, rs) && Answered(b.txs[i], values, Answers(b, h, i, rs))
  }

  /** A recorded incarnation is what its transaction does in any state that agrees with its reads. */
  ghost predicate ExecutionOk(b: Block, h: History, i: nat, x: Execution)
    requires i < |b.txs|
  {
    && ReadsOk(h, i, x.readSet)
    && forall f: Loc -> Value {:trigger RunFrom(b.txs[i], [], f)} ::
         (forall l :: l in x.readSet ==> f(l) == Answers(b, h, i, x.readSet)[l]) ==>
           RunFrom(b.txs[i], [], f) == Done(x.writeSet, x.result)
  }

  lemma AnswersStable(b: Block, h: History, h': History, i: nat, rs: ReadSet)
    requires ReadsOk(h, i, rs) && forall v :: v in h ==> v in h' && h'[v] == h[v]
    ensures ReadsOk(h', i, rs) && Answers(b, h', i, rs) == Answers(b, h, i, rs)
  {
    forall l | l in rs ensures OriginsOk(h', l, i, rs[l])
      && Eval(h', l, i, rs[l], b.storage(l)) == Eval(h, l, i, rs[l], b.storage(l)) {
      EvalStable(h, h', l, i, i, rs[l], b.storage(l), NO_UPDATES);
    }
  }

  /** A read that succeeds extends the log of its execution. */
  lemma LogExtended(b: Block, h: History, i: nat, values: seq<Value>, rs: ReadSet, l: Loc, m: Versions)
    requires i < |b.txs| && LogOk(b, h, i, values, rs) && Agrees(h, l, m)
    requires Next(b.txs[i], values) == Read(l)
    ensures var r := Intercept(m, i, b.isCode(l), if l in rs then Some(rs[l]) else None);
      r.Got? ==> LogOk(b, h, i, values + [InterceptedValue(m, i, b.isCode(l), b.storage(l))], rs[l := r.origins])
  {
    var prev := if l in rs then Some(rs[l]) else None;
    var r := Intercept(m, i, b.isCode(l), prev);
    InterceptEvaluates(h, l, m, i, b.isCode(l), prev, b.storage(l));
    if r.Got? {
      var rs' := rs[l := r.origins];
      var values' := values + [InterceptedValue(m, i, b.isCode(l), b.storage(l))];
      assert ReadsOk(h, i, rs');
      forall k | 0 <= k < |values'|
        ensures var a := Next(b.txs[i], values'[..k]);
          a.Read? && a.loc in Answers(b, h, i, rs') && values'[k] == Answers(b, h, i, rs')[a.loc]
      {
        assert values'[..k] == values[..k];
        if k == |values| {
          assert values[..k] == values;
        }
      }
    }
  }

  /** An execution that ran to its end can be recorded. */
  lemma LogFinished(b: Block, h: History, i: nat, values: seq<Value>, rs: ReadSet, ws: map<Loc, MemoryValue>, r: nat)
    requires i < |b.txs| && LogOk(b, h, i, values, rs) && WritesEstimates(b)
    requires Next(b.txs[i], values) == Finish(Done(ws, r))
    ensures ExecutionOk(b, h, i, Execution(rs, ws, r))
    ensures b.estimates[i] <= ws.Keys
  {
    var answers := Answers(b, h, i, rs);
    forall f: Loc -> Value | forall l :: l in rs ==> f(l) == answers[l]
      ensures RunFrom(b.txs[i], [], f) == Done(ws, r)
    {
      AnsweredRun(b.txs[i], values, answers, f, 0);
      assert values[..0] == [];
    }
    var f := (l: Loc) => if l in answers then answers[l] else b.storage(l);
    assert RunFrom(b.txs[i], [], f) == Done(ws, r);
  }

  // ---------------------------------------------------------------- entries of one transaction

  /** Transaction `j` has no data in memory, only estimates. */
  ghost predicate OnlyEstimates(b: Block, sh: Shared, j: nat) {
    && j < |sh.lastWrites| == |b.estimates|
    && (forall l :: l in sh.lastWrites[j] ==> j in At(sh.data, l))
    && (forall l :: j in At(sh.data, l) ==>
          At(sh.data, l)[j].Estimate? && (l in sh.lastWrites[j] || l in b.estimates[j]))
  }

  ghost predicate Recorded(sh: Shared, j: nat) {
    && j < |sh.status| == |sh.lastWrites| == |sh.lastReads|
    && (j, sh.status[j].incarnation) in sh.history
    && sh.lastWrites[j] == Last(sh, j).writeSet.Keys
    && sh.lastReads[j] == Last(sh, j).readSet
    && (forall l :: j in At(sh.data, l) <==> l in sh.lastWrites[j])
  }

  ghost function Last(sh: Shared, j: nat): Execution
    requires j < |sh.status| && (j, sh.status[j].incarnation) in sh.history
  {
    sh.history[(j, sh.status[j].incarnation)]
  }

  /** The entries of `j` outside `marked` are its last write set, those in `marked` are estimates. */
  ghost predicate Entries(sh: Shared, j: nat, marked: set<Loc>) {
    && Recorded(sh, j)
    && (forall l :: l in sh.lastWrites[j] ==>
          At(sh.data, l)[j] == if l in marked then Estimate
            else Data(sh.status[j].incarnation, Last(sh, j).writeSet[l]))
  }

  ghost predicate RecordFits(b: Block, sh: Shared, i: nat, inc: nat, out: Execution, stale: set<Loc>, todo: set<Loc>) {
    && i < |sh.lastWrites| == |sh.lastReads|
    && (i, inc) in sh.history && sh.history[(i, inc)] == out && sh.lastReads[i] == out.readSet
    && todo <= out.writeSet.Keys && stale !! out.writeSet.Keys && (stale != {} ==> todo == out.writeSet.Keys)
    && (forall l :: l in sh.lastWrites[i] ==> i in At(sh.data, l))
    && (forall l :: i in At(sh.data, l) ==> l in stale || l in out.writeSet)
    && (forall l :: i in At(sh.data, l) && (l in stale || l in todo) ==> At(sh.data, l)[i].Estimate?)
    && (forall l :: l in out.writeSet && l !in todo ==>
          l in sh.lastWrites[i] && i in At(sh.data, l) && At(sh.data, l)[i] == Data(inc, out.writeSet[l]))
  }

  ghost predicate ExecStored(b: Block, sh: Shared, i: nat, inc: nat, e: ExecPhase) {
    && i < |b.txs| == |sh.status| == |sh.results| && sh.status[i].incarnation == inc
    && match e
       case Run(values, rs) => OnlyEstimates(b, sh, i) && (i, inc) !in sh.history && LogOk(b, sh.history, i, values, rs)
       case Blocked(_) => OnlyEstimates(b, sh, i) && (i, inc) !in sh.history
       case Record(out, stale, todo, _) => RecordFits(b, sh, i, inc, out, stale, todo)
       case Save(r, _) => Entries(sh, i, {}) && r == Last(sh, i).result
       case _ => Entries(sh, i, {}) && sh.results[i] == Some(Last(sh, i).result)
  }

  /** What the memory holds for the transactions a worker is responsible for. */
  ghost predicate Stored(b: Block, sh: Shared, w: Worker) {
    match w
    case Exec(i, inc, e) =>
      ExecStored(b, sh, i, inc, e) && forall d: nat :: Carries(w, d) ==> OnlyEstimates(b, sh, d)
    case Valid(i, v) =>
      && (v.ToEstimates? ==> Entries(sh, i, {}))
      && (v.Estimating? ==> Recorded(sh, i) && v.left <= sh.lastWrites[i] && Entries(sh, i, sh.lastWrites[i] - v.left))
      && (v.MakeReady? ==> OnlyEstimates(b, sh, i))
    case _ => true
  }

  /** What the memory holds for a transaction nobody is responsible for. */
  ghost predicate TxStored(b: Block, sh: Shared, j: nat) {
    && j < |sh.status| == |sh.results|
    && (sh.status[j].status.ReadyToExecute? ==> OnlyEstimates(b, sh, j))
    && (Finished(sh.status[j]) ==> Entries(sh, j, {}) && sh.results[j] == Some(Last(sh, j).result))
  }

  ghost predicate HistoryOk(b: Block, sh: Shared) {
    forall j: nat, inc: nat :: (j, inc) in sh.history ==>
      && j < |sh.status| == |b.txs| && inc <= sh.status[j].incarnation
      && (sh.status[j].status.ReadyToExecute? ==> inc < sh.status[j].incarnation)
      && ExecutionOk(b, sh.history, j, sh.history[(j, inc)])
  }

  ghost predicate Versioned(b: Block, s: State) {
    && WritesEstimates(b)
    && HistoryOk(b, s.sh)
    && (forall l :: Agrees(s.sh.history, l, At(s.sh.data, l)))
    && (forall j :: 0 <= j < |s.sh.status| ==> TxStored(b, s.sh, j))
    && (forall u :: 0 <= u < |s.ws| ==> Stored(b, s.sh, s.ws[u]))
    && (forall j: nat, d: nat :: Waits(s.sh, j, d) ==> OnlyEstimates(b, s.sh, d))
  }

  // ---------------------------------------------------------------- framing

  /** Nothing about transaction `j` changed. */
  ghost predicate SameTx(sh: Shared, sh': Shared, j: nat) {
    && j < |sh.status| == |sh.lastReads| == |sh.lastWrites| == |sh.results|
    && |sh'.status| == |sh.status| && |sh'.lastReads| == |sh.lastReads| && |sh'.lastWrites| == |sh.lastWrites|
       && |sh'.results| == |sh.results|
    && sh'.status[j] == sh.status[j] && sh'.lastReads[j] == sh.lastReads[j] && sh'.lastWrites[j] == sh.lastWrites[j]
    && sh'.results[j] == sh.results[j]
    && (forall l :: j in At(sh'.data, l) <==> j in At(sh.data, l))
    && (forall l :: j in At(sh.data, l) ==> At(sh'.data, l)[j] == At(sh.data, l)[j])
  }

  /** The history only grows, by versions of transaction `i`. */
  ghost predicate Grows(h: History, h': History, i: nat) {
    && (forall v :: v in h ==> v in h' && h'[v] == h[v])
    && (forall v :: v in h' && v !in h ==> v.0 == i)
  }

  lemma TxFrame(b: Block, sh: Shared, sh': Shared, j: nat, i: nat, marked: set<Loc>)
    requires SameTx(sh, sh', j) && Grows(sh.history, sh'.history, i)
    ensures OnlyEstimates(b, sh, j) ==> OnlyEstimates(b, sh', j)
    ensures Entries(sh, j, marked) ==> Entries(sh', j, marked) && Last(sh', j) == Last(sh, j)
  {
  }

  lemma ExecFrame(b: Block, sh: Shared, sh': Shared, j: nat, inc: nat, e: ExecPhase, i: nat)
    requires SameTx(sh, sh', j) && Grows(sh.history, sh'.history, i) && j != i
    requires ExecStored(b, sh, j, inc, e)
    ensures ExecStored(b, sh', j, inc, e)
  {
    TxFrame(b, sh, sh', j, i, {});
    if e.Run? {
      AnswersStable(b, sh.history, sh'.history, j, e.readSet);
    }
  }

  /** Worker `w` changed memory only for `i` and a status only for `c`; no other worker is concerned by either. */
  lemma OthersStored(b: Block, s: State, s': State, w: nat, i: nat, c: nat, u: nat)
    requires Sizes(b, s) && Sizes(b, s') && Versioned(b, s) && Owned(s) && Grows(s.sh.history, s'.sh.history, i)
    requires forall j: nat :: j < |s.sh.status| && j != i && j != c ==> SameTx(s.sh, s'.sh, j)
    requires u < |s.ws| && u != w && !Elsewhere(s, w, i) && !Elsewhere(s, w, c)
    ensures Stored(b, s'.sh, s.ws[u])
  {
    assert Stored(b, s.sh, s.ws[u]) && Fits(s.sh, s.ws[u]) && !Owns(s.ws[u], i) && !Owns(s.ws[u], c);
    match s.ws[u]
    case Exec(j, inc, e) =>
      ExecFrame(b, s.sh, s'.sh, j, inc, e, i);
      forall d: nat | Carries(s.ws[u], d) ensures OnlyEstimates(b, s'.sh, d) {
        assert Owns(s.ws[u], d);
        TxFrame(b, s.sh, s'.sh, d, i, {});
      }
    case Valid(j, v) =>
      if Converts(s.ws[u], j) {
        TxFrame(b, s.sh, s'.sh, j, i, {});
        if v.Estimating? {
          TxFrame(b, s.sh, s'.sh, j, i, s.sh.lastWrites[j] - v.left);
        }
      }
    case _ =>
  }

  lemma HistoryStable(b: Block, sh: Shared, sh': Shared, i: nat, c: nat)
    requires HistoryOk(b, sh) && Grows(sh.history, sh'.history, i)
    requires |sh'.status| == |sh.status| && forall j :: 0 <= j < |sh.status| && j != c ==> sh'.status[j] == sh.status[j]
    requires c < |sh.status| ==>
      || sh'.status[c].incarnation > sh.status[c].incarnation
      || (sh'.status[c].incarnation == sh.status[c].incarnation && !sh'.status[c].status.ReadyToExecute?)
    requires forall v :: v in sh'.history && v !in sh.history ==>
      && v.0 < |sh.status| == |b.txs| && v.1 <= sh'.status[v.0].incarnation && !sh'.status[v.0].status.ReadyToExecute?
      && ExecutionOk(b, sh.history, v.0, sh'.history[v])
    ensures HistoryOk(b, sh')
  {
    forall j: nat, inc: nat | (j, inc) in sh'.history
      ensures j < |sh.status| == |b.txs| && ExecutionOk(b, sh'.history, j, sh'.history[(j, inc)])
    {
      var v := (j, inc);
      assert v.0 == j && v.1 == inc;
      AnswersStable(b, sh.history, sh'.history, j, sh'.history[(j, inc)].readSet);
    }
  }

  /** What the moving worker has to establish for the memory invariant to be kept. */
  lemma VersionsKept(b: Block, s: State, s': State, w: nat, i: nat, c: nat)
    requires Sizes(b, s) && Sizes(b, s') && Versioned(b, s) && Owned(s) && OnlyMoved(s, s', w, c)
    requires Grows(s.sh.history, s'.sh.history, i) && HistoryOk(b, s'.sh)
    requires forall l :: Agrees(s'.sh.history, l, At(s'.sh.data, l))
    requires forall j: nat :: j < |s.sh.status| && j != i && j != c ==> SameTx(s.sh, s'.sh, j)
    requires !Elsewhere(s, w, i) && !Elsewhere(s, w, c)
    requires i < |s.sh.status| ==> TxStored(b, s'.sh, i)
    requires c < |s.sh.status| ==> TxStored(b, s'.sh, c)
    requires Stored(b, s'.sh, s'.ws[w])
    requires forall j: nat, d: nat :: Waits(s'.sh, j, d) ==>
      (Waits(s.sh, j, d) && d != i && d != c) || OnlyEstimates(b, s'.sh, d)
    ensures Versioned(b, s')
  {
    forall j | 0 <= j < |s'.sh.status| ensures TxStored(b, s'.sh, j) {
      if j != i && j != c {
        assert TxStored(b, s.sh, j);
        TxFrame(b, s.sh, s'.sh, j, i, {});
      }
    }
    forall u | 0 <= u < |s'.ws| ensures Stored(b, s'.sh, s'.ws[u]) {
      if u != w {
        OthersStored(b, s, s', w, i, c, u);
      }
    }
    forall j: nat, d: nat | Waits(s'.sh, j, d) ensures OnlyEstimates(b, s'.sh, d) {
      if Waits(s.sh, j, d) && d != i && d != c {
        TxFrame(b, s.sh, s'.sh, d, i, {});
      }
    }
  }
}
