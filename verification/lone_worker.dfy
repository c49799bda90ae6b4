/** A worker that runs while the others stand still comes to the end of its task: every step of it makes a
    measure smaller, whatever state the run had reached. Waiting for an unfinished transaction, an
    inconsistent read and a failed validation each happen at most once more. */
module LoneWorker {
  import opened Collections
  import opened MemoryModel
  import opened TransactionProgram
  import opened Protocol
  import opened Ownership
  import opened VersionsInvariant
  import opened Obligations
  import opened Completion
  import opened Aborts

  /** Every transaction completes, whatever it reads, and no account is destroyed. */
  ghost predicate Tame(b: Block) {
    && (forall l :: !b.storage(l).Destroyed?)
    && forall i: nat, h :: i < |b.txs| && Next(b.txs[i], h).Finish? ==>
         Next(b.txs[i], h).outcome.Done? && MildWrites(Next(b.txs[i], h).outcome.writeSet)
  }

  lemma TameIsHarmless(b: Block)
    requires Tame(b)
    ensures Harmless(b)
  {
  }

  // ---------------------------------------------------------------- who stands where

  /** The worker works on a transaction or has claimed one. */
  predicate Holds(w: Worker) {
    w.Exec? || w.Valid? || (w.Seek? && (w.seek.PeekValidation? || w.seek.PeekExecution?))
  }

  function Held(w: Worker): nat
    requires Holds(w)
  {
    if w.Seek? then w.seek.t else w.tx
  }

  predicate Locked(w: Worker) {
    || (w.Exec? && (HoldsStatus(w, w.tx) || w.exec.Record?))
    || (w.Valid? && (w.val.Check? || w.val.Estimating?))
  }

  /** The others hold no lock, and none of them works on a lower transaction. */
  ghost predicate Lone(s: State, w: nat) {
    && w < |s.ws|
    && forall u :: 0 <= u < |s.ws| && u != w ==>
         !Locked(s.ws[u]) && (Holds(s.ws[u]) ==> Holds(s.ws[w]) && Held(s.ws[w]) <= Held(s.ws[u]))
  }

  /** With the execution index past its transaction, everything below it is finished: what is ready would be at the
      index or in somebody's hands, and what waits, waits for a lower transaction. */
  lemma {:induction false} LowerFinished(b: Block, s: State, w: nat, j: nat)
    requires Sizes(b, s) && Owned(s) && Pending(s) && Lone(s, w) && Holds(s.ws[w]) && j < Held(s.ws[w]) < |s.sh.status|
    requires s.sh.executionIdx > Held(s.ws[w])
    ensures Finished(s.sh.status[j])
    decreases j
  {
    hide OneOwner, StalePending, ValidationPending, MarkPending;
    forall u | 0 <= u < |s.ws| ensures !WillTry(s.ws[u], j) && !Owns(s.ws[u], j) {
      assert Fits(s.sh, s.ws[u]);
      NotInHand(s, w, u, j);
    }
    if s.sh.status[j].status.Aborting? {
      assert Holder(s, j);
      var j': nat :| Waits(s.sh, j', j);
      LowerFinished(b, s, w, j');
    }
  }

  lemma NotInHand(s: State, w: nat, u: nat, j: nat)
    requires Lone(s, w) && Holds(s.ws[w]) && j < Held(s.ws[w]) && u < |s.ws| && Fits(s.sh, s.ws[u])
    ensures !WillTry(s.ws[u], j) && !Owns(s.ws[u], j)
  {
  }

  /** Below there are no estimates then. */
  lemma NoEstimateBelow(b: Block, s: State, i: nat, l: Loc)
    requires Sizes(b, s) && Versioned(b, s) && i <= |s.sh.status|
    requires forall j: nat :: j < i ==> Finished(s.sh.status[j])
    ensures forall j: nat :: j < i && j in At(s.sh.data, l) ==> At(s.sh.data, l)[j].Data?
  {
    forall j: nat | j < i && j in At(s.sh.data, l) ensures At(s.sh.data, l)[j].Data? {
      assert TxStored(b, s.sh, j);
    }
  }

  // ---------------------------------------------------------------- walks

  lemma {:induction false} WalkFree(m: Versions, i: nat)
    requires forall j: nat :: j < i && j in m ==> m[j].Data?
    ensures Walk(m, i).Origins?
  {
    if i != 0 {
      WalkFree(m, i - 1);
    }
  }

  /** Reading again what was just read is consistent. */
  lemma {:induction false} RereadFinds(m: Versions, i: nat, os: seq<ReadOrigin>)
    requires Walk(m, i) == Origins(os)
    ensures Reread(m, i, os) == Got(os)
    decreases i
  {
    if i != 0 {
      if i - 1 !in m {
        RereadFinds(m, i - 1, os);
      } else if IsLazy(m[i - 1].value) {
        assert os[1..] == Walk(m, i - 1).origins;
        RereadFinds(m, i - 1, os[1..]);
      }
    }
  }

  /** What a walk finds validates. */
  lemma {:induction false} WalkMatches(m: Versions, i: nat, os: seq<ReadOrigin>)
    requires Walk(m, i) == Origins(os)
    ensures Matches(m, i, os)
    decreases i
  {
    if i != 0 {
      if i - 1 !in m {
        WalkMatches(m, i - 1, os);
      } else if IsLazy(m[i - 1].value) {
        assert os[1..] == Walk(m, i - 1).origins;
        WalkMatches(m, i - 1, os[1..]);
      }
    }
  }

  lemma {:induction false} WalkNothing(i: nat)
    ensures Walk(map[], i) == Origins([FromStorage])
  {
    if i != 0 {
      WalkNothing(i - 1);
    }
  }

  lemma WalkHolds(data: map<Loc, Versions>, i: nat, l: Loc, os: seq<ReadOrigin>)
    requires Walk(At(data, l), i) == Origins(os)
    ensures ReadHolds(data, i, l, os)
  {
    if l in data {
      WalkMatches(data[l], i, os);
    } else {
      WalkNothing(i);
    }
  }

  lemma {:induction false} WalkBlocks(m: Versions, i: nat)
    ensures Walk(m, i).BlockedBy? ==> Walk(m, i).tx < i && Walk(m, i).tx in m && m[Walk(m, i).tx].Estimate?
  {
    if i != 0 {
      WalkBlocks(m, i - 1);
    }
  }

  lemma {:induction false} RereadBlocks(m: Versions, i: nat, prev: seq<ReadOrigin>)
    ensures Reread(m, i, prev).Blocking? ==>
      Reread(m, i, prev).tx < i && Reread(m, i, prev).tx in m && m[Reread(m, i, prev).tx].Estimate?
    decreases i
  {
    if i != 0 {
      RereadBlocks(m, i - 1, prev);
      if prev != [] {
        RereadBlocks(m, i - 1, prev[1..]);
      }
    }
  }

  /** A read blocks on an estimate below. */
  lemma BlocksOnEstimate(m: Versions, i: nat, code: bool, prev: Option<seq<ReadOrigin>>)
    ensures var r := Intercept(m, i, code, prev);
      r.Blocking? ==> r.tx < i && r.tx in m && m[r.tx].Estimate?
  {
    WalkBlocks(m, i);
    if prev.Some? {
      RereadBlocks(m, i, prev.value);
    }
  }

  /** Whatever was read can be read again right away. */
  lemma ReadsAgain(m: Versions, i: nat, code: bool, prev: Option<seq<ReadOrigin>>)
    ensures var r := Intercept(m, i, code, prev);
      r.Got? ==> Intercept(m, i, code, Some(r.origins)) == r
    ensures prev.None? ==> !Intercept(m, i, code, prev).Inconsistent?
  {
    if Walk(m, i).Origins? {
      RereadFinds(m, i, Walk(m, i).origins);
    }
  }

  // ---------------------------------------------------------------- fresh and stale reads

  /** What the running execution has read can be read again. */
  ghost predicate FreshRun(b: Block, data: map<Loc, Versions>, i: nat, rs: ReadSet) {
    forall l :: l in rs ==> Intercept(At(data, l), i, b.isCode(l), Some(rs[l])) == Got(rs[l])
  }

  /** Some recorded read of `i` is outdated. */
  ghost predicate IsStale(sh: Shared, i: nat) {
    exists l :: Stale(sh, i, l)
  }

  /** With nothing unfinished below, fresh reads are valid ones. */
  lemma FreshIsValid(b: Block, s: State, i: nat, rs: ReadSet, l: Loc)
    requires Sizes(b, s) && Versioned(b, s) && i <= |s.sh.status| && ReadsOk(s.sh.history, i, rs) && l in rs
    requires FreshRun(b, s.sh.data, i, rs) && forall j: nat :: j < i ==> Finished(s.sh.status[j])
    ensures ReadHolds(s.sh.data, i, l, rs[l])
  {
    var m := At(s.sh.data, l);
    NoEstimateBelow(b, s, i, l);
    WalkFree(m, i);
    assert Agrees(s.sh.history, l, m);
    RereadIsWalk(s.sh.history, l, m, i, i, rs[l]);
    WalkHolds(s.sh.data, i, l, rs[l]);
  }

  /** Changing an entry of `i` outdates no read of a transaction up to `i`. */
  lemma EntryKeeps(sh: Shared, sh': Shared, i: nat, l: Loc, j: nat, k: Loc)
    requires j <= i < |sh.lastWrites| && !Stale(sh, j, k)
    requires sh' == ForgetAt(sh, i, l) || (exists e :: sh' == WriteAt(sh, i, l, e)) || sh' == EstimateAt(sh, i, l)
    ensures !Stale(sh', j, k)
  {
    if j < |sh.lastReads| && k in sh.lastReads[j] && k == l && l in sh'.data {
      MatchesLocal(At(sh.data, l), sh'.data[l], j, sh.lastReads[j][l]);
      if l !in sh.data {
        StorageOnly(sh.lastReads[j][l], j);
      }
    }
  }

  // ---------------------------------------------------------------- the measure

  /** How much can still happen before the worker is rid of its transaction. An execution on outdated reads is followed
      by a failed validation, a failed validation by a fresh execution if the execution index is past the transaction,
      and a fresh execution by a validation that succeeds or is not repeated. */
  ghost function Level(b: Block, sh: Shared, w: Worker): nat {
    match w
    case Seek(p) => if p.Begin? then 0 else 9
    case Exec(i, _, e) =>
      (match e
       case Run(_, rs) => if FreshRun(b, sh.data, i, rs) then 5 else if sh.executionIdx > i then 8 else 7
       case Blocked(j) => if j < |sh.status| && Finished(sh.status[j]) then 6 else 3
       case _ => if sh.executionIdx > i && IsStale(sh, i) then 8 else 5)
    case Valid(i, p) =>
      if sh.executionIdx > i then
        (if p.Confirm? || ((p.Start? || p.Check?) && !IsStale(sh, i)) then 3 else 7)
      else if p.Retry? then 8 else 3
    case _ => 0
  }

  function Phase(w: Worker): nat {
    match w
    case Seek(p) =>
      (match p
       case Begin => 0
       case LoadExecution => 9
       case LoadValidation(_) => 8
       case LoadNumValidated => 7
       case LoadMinValidation(_) => 6
       case BumpValidation => 7
       case PeekValidation(_) => 6
       case BumpExecution => 5
       case PeekExecution(_) => 4)
    case Exec(_, _, p) =>
      (match p
       case Run(_, _) => 9
       case Blocked(_) => 8
       case Record(_, _, _, _) => 7
       case Save(_, _) => 6
       case Lock(_) => 5
       case Resume(_, _) => 4
       case LowerExecution(_, _, _) => 4
       case LowerMinValidation(_) => 3
       case CompareValidation(_) => 2
       case LowerValidation => 1
       case Mark(_) => 0)
    case Valid(_, p) =>
      (match p
       case Start => 9
       case Check(_) => 8
       case Refute => 7
       case ToEstimates => 6
       case Estimating(_) => 5
       case MakeReady => 4
       case LowerAfterAbort => 3
       case CompareExecution => 2
       case Retry => 1
       case Confirm => 0)
    case _ => 0
  }

  /** What is left to read, to write, to resume, to check or to mark. */
  function LeftOver(b: Block, w: Worker): nat {
    match w
    case Exec(i, _, p) =>
      (match p
       case Run(values, _) => if i < |b.txs| && b.txs[i].gas > |values| then b.txs[i].gas - |values| else 0
       case Record(_, stale, todo, _) => |stale| + |todo|
       case Resume(rest, _) => 2 * |rest|
       case LowerExecution(_, rest, _) => 2 * |rest| + 1
       case _ => 0)
    case Valid(_, p) =>
      (match p
       case Check(left) => |left|
       case Estimating(left) => |left|
       case _ => 0)
    case _ => 0
  }

  ghost predicate Smaller(b: Block, sh': Shared, w': Worker, sh: Shared, w: Worker) {
    || Level(b, sh', w') < Level(b, sh, w)
    || (Level(b, sh', w') == Level(b, sh, w)
        && (Phase(w') < Phase(w) || (Phase(w') == Phase(w) && LeftOver(b, w') < LeftOver(b, w))))
  }

  // ---------------------------------------------------------------- every step makes it smaller

  lemma SeekLess(b: Block, s: State, w: nat, sh': Shared, w': Worker)
    requires w < |s.ws| && s.ws[w].Seek? && !s.ws[w].seek.Begin? && SeekStep(s, w, sh', w')
    ensures Smaller(b, sh', w', s.sh, s.ws[w])
  {
    hide StatusFree, IsStale;
  }

  lemma RunLess(b: Block, s: State, w: nat, sh': Shared, w': Worker)
    requires Sizes(b, s) && Owned(s) && Versioned(b, s) && Pending(s) && NoneDestroyed(s) && Tame(b) && Lone(s, w)
    requires s.ws[w].Exec? && s.ws[w].exec.Run? && ExecStep(b, s, w, sh', w')
    ensures Smaller(b, sh', w', s.sh, s.ws[w])
  {
    var i, values, rs := s.ws[w].tx, s.ws[w].exec.values, s.ws[w].exec.readSet;
    match Next(b.txs[i], values)
    case Read(l) => ReadLess(b, s, w, sh', w', l);
    case Finish(o) => DoneLess(b, s, w, sh', w', o);
  }

  /** A read does not fail, and blocks only on what is not finished. */
  lemma ReadFacts(b: Block, s: State, w: nat, l: Loc)
    requires Sizes(b, s) && Versioned(b, s) && NoneDestroyed(s) && Tame(b) && w < |s.ws|
    requires s.ws[w].Exec? && s.ws[w].exec.Run?
    ensures var i, rs := s.ws[w].tx, s.ws[w].exec.readSet;
      var m, code := At(s.sh.data, l), b.isCode(l);
      var r := Intercept(m, i, code, if l in rs then Some(rs[l]) else None);
      && !InterceptedValue(m, i, code, b.storage(l)).Destroyed?
      && (r.Blocking? && r.tx < |s.sh.status| ==> !Finished(s.sh.status[r.tx]))
      && (r.Got? && FreshRun(b, s.sh.data, i, rs) ==> FreshRun(b, s.sh.data, i, rs[l := r.origins]))
      && (r.Inconsistent? ==> !FreshRun(b, s.sh.data, i, rs))
  {
    var i, rs := s.ws[w].tx, s.ws[w].exec.readSet;
    var m, code := At(s.sh.data, l), b.isCode(l);
    var prev := if l in rs then Some(rs[l]) else None;
    var r := Intercept(m, i, code, prev);
    BlocksOnEstimate(m, i, code, prev);
    ReadsAgain(m, i, code, prev);
    WalkNotDestroyed(m, i, b.storage(l), NO_UPDATES);
    if r.Blocking? && r.tx < |s.sh.status| {
      assert TxStored(b, s.sh, r.tx);
    }
    hide Intercept, Versioned, Tame, NoneDestroyed;
  }

  lemma ReadLess(b: Block, s: State, w: nat, sh': Shared, w': Worker, l: Loc)
    requires Sizes(b, s) && Versioned(b, s) && NoneDestroyed(s) && Tame(b) && w < |s.ws|
    requires s.ws[w].Exec? && s.ws[w].exec.Run? && ExecStep(b, s, w, sh', w')
    requires Next(b.txs[s.ws[w].tx], s.ws[w].exec.values) == Read(l)
    ensures Smaller(b, sh', w', s.sh, s.ws[w])
  {
    hide Intercept, InterceptedValue, Versioned, Tame, NoneDestroyed, FreshRun, IsStale, LocationsFree, At;
    ReadFacts(b, s, w, l);
    FreshStart(b, s.sh.data, s.ws[w].tx);
    ReadOutcome(b, s, w, sh', w', l);
  }

  lemma ReadOutcome(b: Block, s: State, w: nat, sh': Shared, w': Worker, l: Loc)
    requires w < |s.ws| && s.ws[w].Exec? && s.ws[w].exec.Run? && ExecStep(b, s, w, sh', w')
    requires Next(b.txs[s.ws[w].tx], s.ws[w].exec.values) == Read(l)
    requires !InterceptedValue(At(s.sh.data, l), s.ws[w].tx, b.isCode(l), b.storage(l)).Destroyed?
    ensures var i, inc, values, rs := s.ws[w].tx, s.ws[w].inc, s.ws[w].exec.values, s.ws[w].exec.readSet;
      var m, code := At(s.sh.data, l), b.isCode(l);
      && sh' == s.sh && i < |b.txs| == |s.sh.status| && |values| < b.txs[i].gas
      && match Intercept(m, i, code, if l in rs then Some(rs[l]) else None)
         case Got(os) =>
           w' == Exec(i, inc, Run(values + [InterceptedValue(m, i, code, b.storage(l))], rs[l := os]))
         case Blocking(j) => w' == Exec(i, inc, Blocked(j))
         case Inconsistent => w' == Exec(i, inc, Run([], map[]))
  {
    hide Intercept, InterceptedValue, At, LocationsFree;
  }

  lemma FreshStart(b: Block, data: map<Loc, Versions>, i: nat)
    ensures FreshRun(b, data, i, map[])
  {
  }

  lemma DoneLess(b: Block, s: State, w: nat, sh': Shared, w': Worker, o: Outcome)
    requires Sizes(b, s) && Owned(s) && Versioned(b, s) && Pending(s) && Tame(b) && Lone(s, w)
    requires s.ws[w].Exec? && s.ws[w].exec.Run? && ExecStep(b, s, w, sh', w')
    requires Next(b.txs[s.ws[w].tx], s.ws[w].exec.values) == Finish(o)
    ensures Smaller(b, sh', w', s.sh, s.ws[w])
  {
    var i, rs := s.ws[w].tx, s.ws[w].exec.readSet;
    assert o.Done? && Stored(b, s.sh, s.ws[w]) && ReadsOk(s.sh.history, i, rs);
    if s.sh.executionIdx > i && FreshRun(b, s.sh.data, i, rs) {
      forall j: nat | j < i ensures Finished(s.sh.status[j]) {
        LowerFinished(b, s, w, j);
      }
      forall l ensures !Stale(sh', i, l) {
        if l in rs {
          FreshIsValid(b, s, i, rs, l);
        }
      }
    }
    hide Versioned, Owned, Pending, FreshRun, Stale, LocationsFree;
  }

  lemma BlockedLess(b: Block, s: State, w: nat, sh': Shared, w': Worker)
    requires w < |s.ws| && s.ws[w].Exec? && s.ws[w].exec.Blocked? && ExecStep(b, s, w, sh', w')
    ensures Smaller(b, sh', w', s.sh, s.ws[w])
  {
    hide StatusFree, IsStale, RunStep;
    FreshStart(b, sh'.data, s.ws[w].tx);
  }

  /** One location of `record` or of marking estimates. */
  ghost predicate EntryChanged(sh: Shared, sh': Shared, i: nat, l: Loc) {
    i < |sh.lastWrites| &&
    (sh' == ForgetAt(sh, i, l) || (exists e :: sh' == WriteAt(sh, i, l, e)) || sh' == EstimateAt(sh, i, l))
  }

  lemma StaleSame(sh: Shared, sh': Shared, i: nat, l: Loc)
    requires EntryChanged(sh, sh', i, l) && IsStale(sh', i)
    ensures IsStale(sh, i)
  {
    var k :| Stale(sh', i, k);
    if !Stale(sh, i, k) {
      EntryKeeps(sh, sh', i, l, i, k);
    }
  }

  /** One location of `record`: the entry of the transaction goes or is written. */
  ghost predicate RecordsAt(sh: Shared, w: Worker, sh': Shared, w': Worker, l: Loc)
    requires w.Exec? && w.exec.Record?
  {
    && w.tx < |sh.lastWrites| && w'.Exec? && w'.tx == w.tx && w'.exec.Record? && w'.exec.out == w.exec.out
    && (|| (l in w.exec.stale && w'.exec.stale == w.exec.stale - {l} && w'.exec.todo == w.exec.todo
            && sh' == ForgetAt(sh, w.tx, l))
        || (l in w.exec.todo && w'.exec.todo == w.exec.todo - {l} && w'.exec.stale == w.exec.stale
            && l in w.exec.out.writeSet && sh' == WriteAt(sh, w.tx, l, Data(w.inc, w.exec.out.writeSet[l]))))
  }

  lemma RecordStep(b: Block, s: State, w: nat, sh': Shared, w': Worker)
    requires w < |s.ws| && s.ws[w].Exec? && s.ws[w].exec.Record? && ExecStep(b, s, w, sh', w')
    ensures (exists l :: RecordsAt(s.sh, s.ws[w], sh', w', l))
      || (sh' == s.sh && w'.Exec? && w'.tx == s.ws[w].tx && w'.exec.Save?)
  {
    hide ForgetAt, WriteAt, RunStep;
    var i, inc, e := s.ws[w].tx, s.ws[w].inc, s.ws[w].exec;
    if e.stale != {} {
      var l :| l in e.stale && sh' == ForgetAt(s.sh, i, l)
        && w' == Exec(i, inc, Record(e.out, e.stale - {l}, e.todo, e.wroteNew));
      assert RecordsAt(s.sh, s.ws[w], sh', w', l);
    } else if e.todo != {} {
      var l :| l in e.todo && l in e.out.writeSet && sh' == WriteAt(s.sh, i, l, Data(inc, e.out.writeSet[l]))
        && w' == Exec(i, inc, Record(e.out, e.stale, e.todo - {l}, e.wroteNew || l !in s.sh.lastWrites[i]));
      assert RecordsAt(s.sh, s.ws[w], sh', w', l);
    }
  }

  lemma RecordLess(b: Block, s: State, w: nat, sh': Shared, w': Worker)
    requires w < |s.ws| && s.ws[w].Exec? && s.ws[w].exec.Record? && ExecStep(b, s, w, sh', w')
    ensures Smaller(b, sh', w', s.sh, s.ws[w])
  {
    hide ExecStep, Level, RecordsAt;
    RecordStep(b, s, w, sh', w');
    if l :| RecordsAt(s.sh, s.ws[w], sh', w', l) {
      RecordsLess(b, s.sh, s.ws[w], sh', w', l);
    } else {
      SameLevel(b, s.sh, s.ws[w], sh', w');
    }
  }

  lemma RecordsLess(b: Block, sh: Shared, w: Worker, sh': Shared, w': Worker, l: Loc)
    requires w.Exec? && w.exec.Record? && RecordsAt(sh, w, sh', w', l)
    ensures Smaller(b, sh', w', sh, w)
  {
    hide ForgetAt, WriteAt, EstimateAt, Level;
    assert EntryChanged(sh, sh', w.tx, l);
    RecordLevel(b, sh, w, sh', w', l);
  }

  lemma RecordLevel(b: Block, sh: Shared, w: Worker, sh': Shared, w': Worker, l: Loc)
    requires w.Exec? && w'.Exec? && w.exec.Record? && w'.exec.Record? && w'.tx == w.tx && EntryChanged(sh, sh', w.tx, l)
    ensures Level(b, sh', w') <= Level(b, sh, w)
  {
    if IsStale(sh', w.tx) {
      StaleSame(sh, sh', w.tx, l);
    }
    hide IsStale;
  }

  lemma SameStale(sh: Shared, sh': Shared, i: nat)
    requires sh'.data == sh.data && sh'.lastReads == sh.lastReads
    ensures IsStale(sh', i) == IsStale(sh, i)
  {
    if l :| Stale(sh, i, l) {
      assert Stale(sh', i, l);
    }
    if l :| Stale(sh', i, l) {
      assert Stale(sh, i, l);
    }
  }

  predicate PastRun(w: Worker) {
    w.Exec? && !w.exec.Run? && !w.exec.Blocked?
  }

  /** Past the reads, the level depends on the index and on the recorded reads only. */
  lemma SameLevel(b: Block, sh: Shared, w: Worker, sh': Shared, w': Worker)
    requires PastRun(w) && PastRun(w') && w'.tx == w.tx && sh'.data == sh.data && sh'.lastReads == sh.lastReads
      && (sh'.executionIdx > w.tx <==> sh.executionIdx > w.tx)
    ensures Level(b, sh', w') == Level(b, sh, w)
  {
    SameStale(sh, sh', w.tx);
    hide IsStale;
  }

  lemma FinishFacts(b: Block, s: State, w: nat, sh': Shared, w': Worker)
    requires w < |s.ws| && PastRun(s.ws[w]) && !s.ws[w].exec.Record? && !s.ws[w].exec.Mark?
      && ExecStep(b, s, w, sh', w')
    requires Fits(s.sh, s.ws[w])
    ensures PastRun(w') && w'.tx == s.ws[w].tx && sh'.data == s.sh.data && sh'.lastReads == s.sh.lastReads
    ensures sh'.executionIdx > w'.tx <==> s.sh.executionIdx > w'.tx
    ensures Phase(w') < Phase(s.ws[w]) || (Phase(w') == Phase(s.ws[w]) && LeftOver(b, w') < LeftOver(b, s.ws[w]))
  {
    hide StatusFree, RunStep, IsStale;
  }

  lemma FinishLess(b: Block, s: State, w: nat, sh': Shared, w': Worker)
    requires w < |s.ws| && PastRun(s.ws[w]) && !s.ws[w].exec.Record? && !s.ws[w].exec.Mark?
      && ExecStep(b, s, w, sh', w')
    requires Fits(s.sh, s.ws[w])
    ensures Smaller(b, sh', w', s.sh, s.ws[w])
  {
    hide ExecStep, Level, Phase, LeftOver, Fits;
    FinishFacts(b, s, w, sh', w');
    SameLevel(b, s.sh, s.ws[w], sh', w');
  }

  lemma MarkLess(b: Block, s: State, w: nat, sh': Shared, w': Worker)
    requires w < |s.ws| && s.ws[w].Exec? && s.ws[w].exec.Mark? && ExecStep(b, s, w, sh', w')
    ensures Smaller(b, sh', w', s.sh, s.ws[w])
  {
    SameStale(s.sh, sh', s.ws[w].tx);
    hide IsStale, RunStep;
  }

  // ---------------------------------------------------------------- validating

  lemma CheckLess(b: Block, s: State, w: nat, sh': Shared, w': Worker)
    requires w < |s.ws| && s.ws[w].Valid? && (s.ws[w].val.Start? || s.ws[w].val.Check?) && ValStep(s, w, sh', w')
    ensures Smaller(b, sh', w', s.sh, s.ws[w])
  {
    var i, p := s.ws[w].tx, s.ws[w].val;
    if p.Check? && p.left != {} {
      var l :| l in p.left && l in s.sh.lastReads[i] && w' == Valid(i, CheckAt(s.sh, i, p.left, l));
      if w'.val.Refute? {
        assert Stale(s.sh, i, l) && IsStale(s.sh, i);
      }
    }
    hide IsStale, LocationsFree, ReadHolds;
  }

  lemma EstimateLess(b: Block, s: State, w: nat, sh': Shared, w': Worker)
    requires w < |s.ws| && s.ws[w].Valid? && s.ws[w].val.Estimating? && ValStep(s, w, sh', w')
    ensures Smaller(b, sh', w', s.sh, s.ws[w])
  {
    hide IsStale, At;
  }

  lemma VerdictLess(b: Block, s: State, w: nat, sh': Shared, w': Worker)
    requires w < |s.ws| && s.ws[w].Valid? && ValStep(s, w, sh', w')
    requires !s.ws[w].val.Start? && !s.ws[w].val.Check? && !s.ws[w].val.Estimating?
    ensures Smaller(b, sh', w', s.sh, s.ws[w])
  {
    hide IsStale, StatusFree, LocationsFree;
    FreshStart(b, sh'.data, s.ws[w].tx);
  }

  /** Every step of a lone worker that has something to do makes the measure smaller, and it stays with its
      transaction until it is rid of it. */
  lemma LoneCounts(b: Block, s: State, w: nat, s': State)
    requires Sound(b, s) && NoneDestroyed(s) && Tame(b) && Lone(s, w) && !s.sh.aborted && StepBy(b, s, w, s')
    requires s.ws[w] != Seek(Begin) && !s.ws[w].Left? && !s.ws[w].Raise?
    ensures Smaller(b, s'.sh, s'.ws[w], s.sh, s.ws[w])
  {
    assert Fits(s.sh, s.ws[w]) by {
      hide SeekStep, ExecStep, ValStep;
    }
    hide SeekStep, ExecStep, ValStep, Owned, Versioned, Pending, Counted, Exits, Tame, Lone, NoneDestroyed, Smaller,
      Fits;
    match s.ws[w] {
      case Seek(_) => SeekLess(b, s, w, s'.sh, s'.ws[w]);
      case Exec(_, _, e) =>
        if e.Run? {
          RunLess(b, s, w, s'.sh, s'.ws[w]);
        } else if e.Blocked? {
          BlockedLess(b, s, w, s'.sh, s'.ws[w]);
        } else if e.Record? {
          RecordLess(b, s, w, s'.sh, s'.ws[w]);
        } else if e.Mark? {
          MarkLess(b, s, w, s'.sh, s'.ws[w]);
        } else {
          FinishLess(b, s, w, s'.sh, s'.ws[w]);
        }
      case Valid(_, v) =>
        if v.Start? || v.Check? {
          CheckLess(b, s, w, s'.sh, s'.ws[w]);
        } else if v.Estimating? {
          EstimateLess(b, s, w, s'.sh, s'.ws[w]);
        } else {
          VerdictLess(b, s, w, s'.sh, s'.ws[w]);
        }
    }
  }
}
