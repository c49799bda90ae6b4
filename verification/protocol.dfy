/** The optimistic executor as a state machine: the shared scheduler and memory of
    pevm, and workers that take one atomic operation, or one lock section whose
    only visible effects are under locks it holds, at a time. */
module Protocol {
  import opened Collections
  import opened MemoryModel
  import opened TransactionProgram

  datatype Status = ReadyToExecute | Executing | Executed | Validated | Aborting

  datatype TxStatus = TxStatus(incarnation: nat, status: Status)

  predicate Finished(t: TxStatus) {
    t.status.Executed? || t.status.Validated?
  }

  /** `Scheduler` and `MvMemory`. `history` is never read by a step: it remembers every
      recorded incarnation. */
  datatype Shared = Shared(
    status: seq<TxStatus>,
    dependents: seq<seq<nat>>,
    executionIdx: nat,
    validationIdx: nat,
    minValidationIdx: nat,
    numValidated: nat,
    aborted: bool,
    data: map<Loc, Versions>,
    lastReads: seq<ReadSet>,
    lastWrites: seq<set<Loc>>,
    results: seq<Option<nat>>,
    history: History)

  /** Where a worker stands inside `next_task`. */
  datatype SeekPhase =
    | Begin
    | LoadExecution
    | LoadValidation(e: nat)
    | LoadNumValidated
    | LoadMinValidation(num: nat)
    | BumpValidation
    | PeekValidation(t: nat)
    | BumpExecution
    | PeekExecution(t: nat)

  /** Where a worker stands between taking an execution task and the end of `finish_execution`. */
  datatype ExecPhase =
    | Run(values: seq<Value>, readSet: ReadSet)
    | Blocked(on: nat)
    | Record(out: Execution, stale: set<Loc>, todo: set<Loc>, wroteNew: bool)
    | Save(result: nat, wroteNew: bool)
    | Lock(wroteNew: bool)
    | Resume(rest: seq<nat>, wroteNew: bool)
    | LowerExecution(d: nat, rest: seq<nat>, wroteNew: bool)
    | LowerMinValidation(wroteNew: bool)
    | CompareValidation(wroteNew: bool)
    | LowerValidation
    | Mark(again: bool)

  /** Where a worker stands inside `try_validate`. */
  datatype ValPhase =
    | Start
    | Check(left: set<Loc>)
    | Refute
    | Confirm
    | ToEstimates
    | Estimating(left: set<Loc>)
    | MakeReady
    | LowerAfterAbort
    | CompareExecution
    | Retry

  datatype Worker =
    | Seek(seek: SeekPhase)
    | Exec(tx: nat, inc: nat, exec: ExecPhase)
    | Valid(tx: nat, val: ValPhase)
    | Raise   // about to set the abort flag
    | Left

  datatype State = State(sh: Shared, ws: seq<Worker>)

  // ---------------------------------------------------------------- locks and memory access

  /** `finish_execution` holds the status lock of its transaction from `Resume` to `Mark`. */
  predicate HoldsStatus(w: Worker, i: nat) {
    w.Exec? && w.tx == i &&
    (w.exec.Resume? || w.exec.LowerExecution? || w.exec.LowerMinValidation? || w.exec.CompareValidation?
     || w.exec.LowerValidation? || w.exec.Mark?)
  }

  /** `record`, `validate_read_locations` and `convert_writes_to_estimates` hold the last-locations lock. */
  predicate HoldsLocations(w: Worker, i: nat) {
    || (w.Exec? && w.tx == i && w.exec.Record?)
    || (w.Valid? && w.tx == i && (w.val.Check? || w.val.Estimating?))
  }

  ghost predicate StatusFree(s: State, i: nat) {
    forall u :: 0 <= u < |s.ws| ==> !HoldsStatus(s.ws[u], i)
  }

  ghost predicate LocationsFree(s: State, i: nat) {
    forall u :: 0 <= u < |s.ws| ==> !HoldsLocations(s.ws[u], i)
  }

  function At(data: map<Loc, Versions>, l: Loc): Versions {
    if l in data then data[l] else map[]
  }

  function Put(data: map<Loc, Versions>, l: Loc, i: nat, e: MemoryEntry): map<Loc, Versions> {
    data[l := At(data, l)[i := e]]
  }

  function Drop(data: map<Loc, Versions>, l: Loc, i: nat): map<Loc, Versions> {
    if l in data then data[l := data[l] - {i}] else data
  }

  /** `validate_read_locations` for one recorded location; an absent location accepts exactly one storage origin. */
  predicate ReadHolds(data: map<Loc, Versions>, i: nat, l: Loc, os: seq<ReadOrigin>) {
    if l in data then Matches(data[l], i, os) else os == [FromStorage]
  }

  function Min(a: nat, b: nat): nat {
    if a < b then a else b
  }

  function SetStatus(sh: Shared, i: nat, st: Status): Shared
    requires i < |sh.status|
  {
    sh.(status := sh.status[i := sh.status[i].(status := st)])
  }

  /** `set_ready_status`. */
  function SetReady(sh: Shared, i: nat): Shared
    requires i < |sh.status|
  {
    sh.(status := sh.status[i := TxStatus(sh.status[i].incarnation + 1, ReadyToExecute)])
  }

  /** `record` removes the entry of `i` at a location that the new incarnation does not write. */
  function ForgetAt(sh: Shared, i: nat, l: Loc): Shared
    requires i < |sh.lastWrites|
  {
    sh.(data := Drop(sh.data, l, i), lastWrites := sh.lastWrites[i := sh.lastWrites[i] - {l}])
  }

  /** `record` writes one location. */
  function WriteAt(sh: Shared, i: nat, l: Loc, e: MemoryEntry): Shared
    requires i < |sh.lastWrites|
  {
    sh.(data := Put(sh.data, l, i, e), lastWrites := sh.lastWrites[i := sh.lastWrites[i] + {l}])
  }

  /** `convert_writes_to_estimates` marks one location. */
  function EstimateAt(sh: Shared, i: nat, l: Loc): Shared {
    if l in sh.data then sh.(data := Put(sh.data, l, i, Estimate)) else sh
  }

  /** One iteration of `validate_read_locations`. */
  function CheckAt(sh: Shared, i: nat, left: set<Loc>, l: Loc): ValPhase
    requires i < |sh.lastReads| && l in sh.lastReads[i]
  {
    if ReadHolds(sh.data, i, l, sh.lastReads[i][l]) then Check(left - {l}) else Refute
  }

  function StartRun(sh: Shared, i: nat): Worker
    requires i < |sh.status|
  {
    Exec(i, sh.status[i].incarnation, Run([], map[]))
  }

  // ---------------------------------------------------------------- next_task

  ghost predicate SeekStep(s: State, w: nat, sh': Shared, w': Worker)
    requires w < |s.ws| && s.ws[w].Seek?
  {
    var sh, n := s.sh, |s.sh.status|;
    match s.ws[w].seek
    case Begin => sh' == sh && w' == (if sh.aborted then Left else Seek(LoadExecution))
    case LoadExecution => sh' == sh && w' == Seek(LoadValidation(sh.executionIdx))
    case LoadValidation(e) =>
      && sh' == sh
      && w' == (if e >= n && sh.validationIdx >= n then Seek(LoadNumValidated)
                else if sh.validationIdx < e then Seek(BumpValidation)
                else Seek(BumpExecution))
    case LoadNumValidated => sh' == sh && w' == Seek(LoadMinValidation(sh.numValidated))
    case LoadMinValidation(num) =>
      sh' == sh && w' == (if num >= n - sh.minValidationIdx then Left else Seek(Begin))
    case BumpValidation =>
      && sh' == sh.(validationIdx := sh.validationIdx + 1)
      && w' == (if sh.validationIdx < n then Seek(PeekValidation(sh.validationIdx)) else Seek(BumpExecution))
    case PeekValidation(t) =>
      && t < n && StatusFree(s, t)
      && (match sh.status[t].status
          case ReadyToExecute => sh' == SetStatus(sh, t, Executing) && w' == StartRun(sh, t)
          case Executed => sh' == sh && w' == Valid(t, Start)
          case Validated => sh' == sh && w' == Valid(t, Start)
          case Aborting => sh' == sh && w' == Seek(Begin)
          case Executing => sh' == sh && w' == Seek(BumpExecution))
    case BumpExecution =>
      && sh' == sh.(executionIdx := sh.executionIdx + 1)
      && w' == (if sh.executionIdx < n then Seek(PeekExecution(sh.executionIdx)) else Seek(Begin))
    case PeekExecution(t) =>
      && t < n && StatusFree(s, t)
      && (if sh.status[t].status.ReadyToExecute?
          then sh' == SetStatus(sh, t, Executing) && w' == StartRun(sh, t)
          else sh' == sh && w' == Seek(Begin))
  }

  // ---------------------------------------------------------------- Vm::execute and finish_execution

  ghost predicate RunStep(b: Block, s: State, i: nat, inc: nat, values: seq<Value>, rs: ReadSet, sh': Shared,
                          w': Worker)
    requires i < |b.txs| && i < |s.sh.lastReads| && i < |s.sh.lastWrites|
  {
    var sh := s.sh;
    match Next(b.txs[i], values)
    case Read(l) =>
      && sh' == sh
      && (var m, code := At(sh.data, l), b.isCode(l);
          var prev := if l in rs then Some(rs[l]) else None;
          match Intercept(m, i, code, prev)
          case Got(os) =>
            var v := InterceptedValue(m, i, code, b.storage(l));
            w' == (if v.Destroyed? then Raise else Exec(i, inc, Run(values + [v], rs[l := os])))
          case Blocking(j) => w' == Exec(i, inc, Blocked(j))
          case Inconsistent => w' == Exec(i, inc, Run([], map[])))
    case Finish(o) =>
      match o
      case Fatal => sh' == sh && w' == Raise
      case NeedsEarlier => sh' == sh && w' == (if i > 0 then Exec(i, inc, Blocked(i - 1)) else Raise)
      case Done(ws, r) =>
        var out := Execution(rs, ws, r);
        && LocationsFree(s, i)
        && sh' == sh.(lastReads := sh.lastReads[i := rs], history := sh.history[(i, inc) := out])
        && w' == Exec(i, inc, Record(out, sh.lastWrites[i] - ws.Keys, ws.Keys, false))
  }

  ghost predicate ExecStep(b: Block, s: State, w: nat, sh': Shared, w': Worker)
    requires w < |s.ws| && s.ws[w].Exec?
  {
    var sh, n := s.sh, |s.sh.status|;
    var i, inc := s.ws[w].tx, s.ws[w].inc;
    && i < n == |b.txs| == |sh.dependents| == |sh.lastReads| == |sh.lastWrites| == |sh.results|
    && match s.ws[w].exec
       case Run(values, rs) => RunStep(b, s, i, inc, values, rs, sh', w')
       case Blocked(j) =>
         // add_dependency
         && j < n && StatusFree(s, j) && StatusFree(s, i)
         && (if Finished(sh.status[j]) then sh' == sh && w' == Exec(i, inc, Run([], map[]))
             else
               && sh' == SetStatus(sh, i, Aborting).(dependents := sh.dependents[j := sh.dependents[j] + [i]])
               && w' == Seek(Begin))
       case Record(out, stale, todo, wroteNew) =>
         if stale != {} then
           exists l ::
             l in stale && sh' == ForgetAt(sh, i, l) && w' == Exec(i, inc, Record(out, stale - {l}, todo, wroteNew))
         else if todo != {} then
           exists l :: l in todo && l in out.writeSet && sh' == WriteAt(sh, i, l, Data(inc, out.writeSet[l]))
                       && w' == Exec(i, inc, Record(out, stale, todo - {l}, wroteNew || l !in sh.lastWrites[i]))
         else sh' == sh && w' == Exec(i, inc, Save(out.result, wroteNew))
       case Save(r, wroteNew) => sh' == sh.(results := sh.results[i := Some(r)]) && w' == Exec(i, inc, Lock(wroteNew))
       case Lock(wroteNew) =>
         && StatusFree(s, i)
         && sh' == sh.(dependents := sh.dependents[i := []])
         && w' == Exec(i, inc, Resume(sh.dependents[i], wroteNew))
       case Resume(rest, wroteNew) =>
         if rest == [] then sh' == sh && w' == Exec(i, inc, LowerMinValidation(wroteNew))
         else
           && rest[0] < n && StatusFree(s, rest[0])
           && sh' == SetReady(sh, rest[0])
           && w' == Exec(i, inc, LowerExecution(rest[0], rest[1..], wroteNew))
       case LowerExecution(d, rest, wroteNew) =>
         && sh' == sh.(executionIdx := Min(sh.executionIdx, d))
         && w' == Exec(i, inc, Resume(rest, wroteNew))
       case LowerMinValidation(wroteNew) =>
         // NeedValidation is the empty bit set, so every execution contains it
         && sh' == sh.(minValidationIdx := Min(sh.minValidationIdx, i))
         && w' == Exec(i, inc, CompareValidation(wroteNew))
       case CompareValidation(wroteNew) =>
         && sh' == sh
         && w' == Exec(i, inc, if i < sh.validationIdx then (if wroteNew then LowerValidation else Mark(true))
            else Mark(false))
       case LowerValidation =>
         && sh' == sh.(validationIdx := Min(sh.validationIdx, i + 1))
         && w' == Exec(i, inc, Mark(true))
       case Mark(again) =>
         && sh' == SetStatus(sh, i, Executed)
         && w' == (if again then Valid(i, Start) else Seek(Begin))
  }

  // ---------------------------------------------------------------- try_validate

  ghost predicate ValStep(s: State, w: nat, sh': Shared, w': Worker)
    requires w < |s.ws| && s.ws[w].Valid?
  {
    var sh, n := s.sh, |s.sh.status|;
    var i := s.ws[w].tx;
    && i < n == |sh.lastReads| == |sh.lastWrites|
    && match s.ws[w].val
       case Start =>
         && LocationsFree(s, i)
         && sh' == sh && w' == Valid(i, Check(sh.lastReads[i].Keys))
       case Check(left) =>
         && sh' == sh
         && (if left == {} then w' == Valid(i, Confirm)
             else exists l :: l in left && l in sh.lastReads[i] && w' == Valid(i, CheckAt(sh, i, left, l)))
       case Refute =>
         // try_validation_abort
         && StatusFree(s, i)
         && (if Finished(sh.status[i]) then
               && sh.numValidated >= (if sh.status[i].status.Validated? then 1 else 0)
               && sh' == SetStatus(sh, i, Aborting).(
                    numValidated := if sh.status[i].status.Validated? then sh.numValidated - 1 else sh.numValidated)
               && w' == Valid(i, ToEstimates)
             else sh' == sh && w' == Valid(i, Confirm))
       case Confirm =>
         // finish_validation, not aborted
         && StatusFree(s, i)
         && sh' == (if sh.status[i].status.Executed?
                    then SetStatus(sh, i, Validated).(numValidated := sh.numValidated + 1) else sh)
         && w' == Seek(Begin)
       case ToEstimates =>
         && LocationsFree(s, i)
         && sh' == sh && w' == Valid(i, Estimating(sh.lastWrites[i]))
       case Estimating(left) =>
         if left == {} then sh' == sh && w' == Valid(i, MakeReady)
         else exists l :: l in left && sh' == EstimateAt(sh, i, l) && w' == Valid(i, Estimating(left - {l}))
       case MakeReady =>
         // finish_validation, aborted
         && StatusFree(s, i)
         && sh' == SetReady(sh, i) && w' == Valid(i, LowerAfterAbort)
       case LowerAfterAbort =>
         && sh' == sh.(validationIdx := Min(sh.validationIdx, i + 1))
         && w' == Valid(i, CompareExecution)
       case CompareExecution =>
         sh' == sh && w' == (if sh.executionIdx > i then Valid(i, Retry) else Seek(Begin))
       case Retry =>
         && StatusFree(s, i)
         && (if sh.status[i].status.ReadyToExecute?
             then sh' == SetStatus(sh, i, Executing) && w' == StartRun(sh, i)
             else sh' == sh && w' == Seek(Begin))
  }

  // ---------------------------------------------------------------- runs

  ghost predicate WorkerStep(b: Block, s: State, w: nat, sh': Shared, w': Worker) {
    && w < |s.ws|
    && match s.ws[w]
       case Seek(_) => SeekStep(s, w, sh', w')
       case Exec(_, _, _) => ExecStep(b, s, w, sh', w')
       case Valid(_, _) => ValStep(s, w, sh', w')
       case Raise => sh' == s.sh.(aborted := true) && w' == Left
       case Left => false
  }

  /** Worker `w` takes a step, or leaves because the run was aborted. */
  ghost predicate StepBy(b: Block, s: State, w: nat, s': State) {
    && w < |s.ws| == |s'.ws|
    && s'.ws == s.ws[w := s'.ws[w]]
    && (WorkerStep(b, s, w, s'.sh, s'.ws[w]) || (s.sh.aborted && s'.sh == s.sh && s'.ws[w].Left?))
  }

  ghost predicate Init(b: Block, s: State) {
    var sh, n := s.sh, |b.txs|;
    && |sh.status| == |sh.dependents| == |sh.lastReads| == |sh.lastWrites| == |sh.results| == |b.estimates| == n
    && (forall i :: 0 <= i < n ==>
          && sh.status[i] == TxStatus(0, ReadyToExecute) && sh.dependents[i] == []
          && sh.lastReads[i] == map[] && sh.lastWrites[i] == {} && sh.results[i] == None)
    && sh.executionIdx == 0 && sh.validationIdx == n && sh.minValidationIdx == n && sh.numValidated == 0
    && !sh.aborted && sh.history == map[]
    && (forall l, j: nat :: j in At(sh.data, l) <==> j < n && l in b.estimates[j])
    && (forall l, j: nat :: j in At(sh.data, l) ==> At(sh.data, l)[j] == Estimate)
    && |s.ws| > 0
    && (forall w :: 0 <= w < |s.ws| ==> s.ws[w] == Seek(Begin))
  }

  /** A run: an initial state and any interleaving of worker steps. */
  ghost predicate IsRun(b: Block, run: seq<State>, movers: seq<nat>) {
    && |run| == |movers| + 1
    && Init(b, run[0])
    && forall k :: 0 <= k < |movers| ==> StepBy(b, run[k], movers[k], run[k + 1])
  }

  /** Every worker left `next_task` and nobody aborted the run. */
  ghost predicate Completed(s: State) {
    !s.sh.aborted && forall w :: 0 <= w < |s.ws| ==> s.ws[w].Left?
  }
}
