/** When a worker leaves: only after a moment at which every transaction was validated that could be, from the
    lowest one that had ever been executed. */
module Leaving {
  import opened MemoryModel
  import opened TransactionProgram
  import opened Protocol
  import opened Completion

  /** The counter that a worker compares was loaded at some moment of the run. */
  lemma {:induction false} NumWasLoaded(b: Block, run: seq<State>, movers: seq<nat>, k: nat, w: nat, num: nat)
    requires IsRun(b, run, movers) && k < |run| && w < |run[k].ws| && run[k].ws[w] == Seek(LoadMinValidation(num))
    ensures exists m: nat :: m < k && run[m].sh.numValidated == num
  {
    if k > 0 {
      assert StepBy(b, run[k - 1], movers[k - 1], run[k - 1 + 1]);
      hide WorkerStep;
      if movers[k - 1] == w {
        LoadsNum(b, run[k - 1], w, run[k]);
      } else {
        NumWasLoaded(b, run, movers, k - 1, w, num);
      }
    }
  }

  lemma LoadsNum(b: Block, s: State, w: nat, s': State)
    requires StepBy(b, s, w, s') && s'.ws[w].Seek? && s'.ws[w].seek.LoadMinValidation?
    ensures s.sh.numValidated == s'.ws[w].seek.num
  {
    if s.ws[w].Exec? && s.ws[w].exec.Run? {
      RunMin(b, s, w, s');
    }
    hide RunStep, StatusFree, LocationsFree;
  }

  lemma StepMin(b: Block, s: State, w: nat, s': State)
    requires StepBy(b, s, w, s')
    ensures s'.sh.minValidationIdx <= s.sh.minValidationIdx
  {
    hide RunStep, StatusFree, LocationsFree;
    if s.ws[w].Exec? && s.ws[w].exec.Run? {
      RunMin(b, s, w, s');
    }
  }

  lemma RunMin(b: Block, s: State, w: nat, s': State)
    requires StepBy(b, s, w, s') && s.ws[w].Exec? && s.ws[w].exec.Run?
    ensures s'.sh.minValidationIdx == s.sh.minValidationIdx && !s'.ws[w].Seek?
  {
    hide Intercept, InterceptedValue;
  }

  /** The lowest index to validate from never rises. */
  lemma {:induction false} MinFalls(b: Block, run: seq<State>, movers: seq<nat>, m: nat, k: nat)
    requires IsRun(b, run, movers) && m <= k < |run|
    ensures run[k].sh.minValidationIdx <= run[m].sh.minValidationIdx
    decreases k
  {
    hide StepBy, Init;
    if m < k {
      MinFalls(b, run, movers, m, k - 1);
      assert StepBy(b, run[k - 1], movers[k - 1], run[k - 1 + 1]);
      StepMin(b, run[k - 1], movers[k - 1], run[k]);
    }
  }

  /** As many validated transactions as there are from `m` on, and none below: those are all of them. */
  lemma {:induction false} ManyValidated(q: seq<TxStatus>, m: nat)
    requires m <= |q| && forall i :: 0 <= i < m ==> !q[i].status.Validated?
    ensures CountValidated(q) <= |q| - m
    ensures CountValidated(q) == |q| - m ==> forall i :: m <= i < |q| ==> q[i].status.Validated?
  {
    if m == |q| {
      InitialCount(q);
    } else {
      ManyValidated(q[..|q| - 1], m);
    }
  }

  lemma LeavesBecause(b: Block, s: State, w: nat, s': State)
    requires StepBy(b, s, w, s') && !Doomed(s) && !s.ws[w].Left? && s'.ws[w].Left?
    ensures s.ws[w].Seek? && s.ws[w].seek.LoadMinValidation?
      && s.ws[w].seek.num >= |s.sh.status| - s.sh.minValidationIdx
  {
    hide StatusFree, LocationsFree, Intercept, InterceptedValue;
  }

  lemma AllFromMin(b: Block, s: State)
    requires Sound(b, s) && s.sh.minValidationIdx <= |b.txs| && s.sh.numValidated >= |b.txs| - s.sh.minValidationIdx
    ensures ValidatedFromMin(b, s)
  {
    ManyValidated(s.sh.status, s.sh.minValidationIdx);
  }

  /** A worker leaves a run that nobody has aborted only after all transactions from the lowest index to validate on
      were validated at the same time. */
  lemma LeavesWhenValidated(b: Block, run: seq<State>, movers: seq<nat>, k: nat)
    requires IsRun(b, run, movers) && WritesEstimates(b) && k < |movers| && !Doomed(run[k])
    requires movers[k] < |run[k].ws| == |run[k + 1].ws| && !run[k].ws[movers[k]].Left? && run[k + 1].ws[movers[k]].Left?
    ensures exists m: nat :: m < k && ValidatedFromMin(b, run[m])
  {
    assert StepBy(b, run[k], movers[k], run[k + 1]);
    hide StepBy, Init, WritesEstimates;
    LeavesBecause(b, run[k], movers[k], run[k + 1]);
    var num := run[k].ws[movers[k]].seek.num;
    NumWasLoaded(b, run, movers, k, movers[k], num);
    var m: nat :| m < k && run[m].sh.numValidated == num;
    MinFalls(b, run, movers, m, k);
    MinFalls(b, run, movers, 0, m);
    NotYetDoomed(b, run, movers, m, k);
    RunInv(b, run, movers, m);
    RunInv(b, run, movers, k);
    StartMin(b, run[0]);
    SoundSize(b, run[k]);
    hide Sound, Doomed;
    AllFromMin(b, run[m]);
  }

  ghost predicate ValidatedFromMin(b: Block, s: State) {
    forall i :: s.sh.minValidationIdx <= i < |b.txs| ==> i < |s.sh.status| && s.sh.status[i].status.Validated?
  }

  lemma StartMin(b: Block, s: State)
    requires Init(b, s)
    ensures s.sh.minValidationIdx == |b.txs|
  {
  }

  lemma SoundSize(b: Block, s: State)
    requires Inv(b, s) && !Doomed(s)
    ensures |s.sh.status| == |b.txs|
  {
  }

  lemma {:induction false} NotYetDoomed(b: Block, run: seq<State>, movers: seq<nat>, m: nat, k: nat)
    requires IsRun(b, run, movers) && m <= k < |run| && !Doomed(run[k])
    ensures !Doomed(run[m])
    decreases k - m
  {
    hide StepBy, Init, Doomed;
    if m < k {
      NotYetDoomed(b, run, movers, m + 1, k);
      assert StepBy(b, run[m], movers[m], run[m + 1]);
      if Doomed(run[m]) {
        StepDoomed(b, run[m], movers[m], run[m + 1]);
      }
    }
  }
}
