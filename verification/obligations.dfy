/** No work is lost: a ready transaction will be tried, and whenever a finished
    transaction has an outdated read, or still lacks its validation, some worker or
    the validation index is bound to look at it again. */
module Obligations {
  import opened MemoryModel
  import opened Protocol

  // ---------------------------------------------------------------- who will act

  /** The worker will try to take transaction `i` for execution, or lower the index for it. */
  predicate WillTry(w: Worker, i: nat) {
    || (w.Seek? && w.seek.PeekValidation? && w.seek.t == i)
    || (w.Seek? && w.seek.PeekExecution? && w.seek.t == i)
    || (w.Valid? && w.tx == i && (w.val.LowerAfterAbort? || w.val.CompareExecution? || w.val.Retry?))
    || (w.Exec? && w.exec.LowerExecution? && w.exec.d == i)
  }

  predicate Peeks(w: Worker, i: nat) {
    w == Seek(PeekValidation(i))
  }

  /** The worker is bound to lower the validation index to at most `i`. */
  predicate Lowers(w: Worker, i: nat) {
    || (w.Exec? && w.tx < i &&
        (w.exec.LowerValidation? ||
         ((w.exec.Record? || w.exec.Save? || w.exec.Lock? || w.exec.Resume? || w.exec.LowerExecution?
           || w.exec.LowerMinValidation? || w.exec.CompareValidation?) && w.exec.wroteNew)))
    || (w.Valid? && w.tx < i && (w.val.ToEstimates? || w.val.Estimating? || w.val.MakeReady? || w.val.LowerAfterAbort?))
  }

  /** The worker will notice that the recorded read of `l` by `i` is outdated. */
  predicate Covers(w: Worker, i: nat, l: Loc) {
    || Peeks(w, i)
    || (w.Valid? && w.tx == i && (w.val.Start? || w.val.Refute? || (w.val.Check? && l in w.val.left)))
    || Lowers(w, i)
  }

  /** The worker will validate `i` or has validated it. */
  predicate Judges(w: Worker, i: nat) {
    Peeks(w, i) || (w.Valid? && w.tx == i && (w.val.Start? || w.val.Refute? || w.val.Check? || w.val.Confirm?))
  }

  /** The last recorded read of `l` by `i` would not validate now. */
  predicate Stale(sh: Shared, i: nat, l: Loc) {
    i < |sh.lastReads| && l in sh.lastReads[i] && !ReadHolds(sh.data, i, l, sh.lastReads[i][l])
  }

  // ---------------------------------------------------------------- pending obligations

  ghost predicate ReadyPending(s: State) {
    forall i :: 0 <= i < |s.sh.status| && s.sh.status[i].status.ReadyToExecute? ==>
      s.sh.executionIdx <= i || exists u :: 0 <= u < |s.ws| && WillTry(s.ws[u], i)
  }

  ghost predicate StalePending(s: State) {
    forall i, l :: 0 <= i < |s.sh.status| && Finished(s.sh.status[i]) && Stale(s.sh, i, l) ==>
      s.sh.validationIdx <= i || exists u :: 0 <= u < |s.ws| && Covers(s.ws[u], i, l)
  }

  ghost predicate ValidationPending(s: State) {
    forall i :: 0 <= i < |s.sh.status| && s.sh.status[i].status.Executed? ==>
      s.sh.validationIdx <= i || exists u :: 0 <= u < |s.ws| && Judges(s.ws[u], i)
  }

  /** A worker about to mark `i` as executed without keeping its validation saw the index at or below `i`. */
  ghost predicate MarkPending(s: State) {
    forall u :: 0 <= u < |s.ws| && s.ws[u].Exec? && s.ws[u].exec == Mark(false) ==>
      s.sh.validationIdx <= s.ws[u].tx || exists v :: 0 <= v < |s.ws| && Peeks(s.ws[v], s.ws[u].tx)
  }

  ghost predicate Pending(s: State) {
    ReadyPending(s) && StalePending(s) && ValidationPending(s) && MarkPending(s)
  }

  // ---------------------------------------------------------------- framing

  ghost predicate Moved(s: State, s': State, w: nat) {
    && w < |s.ws| == |s'.ws| && s'.ws == s.ws[w := s'.ws[w]]
    && |s'.sh.status| == |s.sh.status|
  }

  lemma ReadyKept(s: State, s': State, w: nat)
    requires Moved(s, s', w) && ReadyPending(s)
    requires forall i :: 0 <= i < |s.sh.status| && s'.sh.status[i].status.ReadyToExecute? ==>
      || s'.sh.executionIdx <= i || WillTry(s'.ws[w], i)
      || (s.sh.status[i].status.ReadyToExecute? && s.sh.executionIdx > i && !WillTry(s.ws[w], i))
    ensures ReadyPending(s')
  {
    forall i | 0 <= i < |s'.sh.status| && s'.sh.status[i].status.ReadyToExecute?
      ensures s'.sh.executionIdx <= i || exists u :: 0 <= u < |s'.ws| && WillTry(s'.ws[u], i)
    {
      if s'.sh.executionIdx > i && !WillTry(s'.ws[w], i) {
        var u :| 0 <= u < |s.ws| && WillTry(s.ws[u], i);
        assert WillTry(s'.ws[u], i);
      } else if s'.sh.executionIdx > i {
        assert WillTry(s'.ws[w], i);
      }
    }
  }

  lemma StaleKept(s: State, s': State, w: nat)
    requires Moved(s, s', w) && StalePending(s)
    requires forall i, l :: 0 <= i < |s.sh.status| && Finished(s'.sh.status[i]) && Stale(s'.sh, i, l) ==>
      || s'.sh.validationIdx <= i || Covers(s'.ws[w], i, l)
      || (Finished(s.sh.status[i]) && Stale(s.sh, i, l) && s.sh.validationIdx > i && !Covers(s.ws[w], i, l))
    ensures StalePending(s')
  {
    forall i, l | 0 <= i < |s'.sh.status| && Finished(s'.sh.status[i]) && Stale(s'.sh, i, l)
      ensures s'.sh.validationIdx <= i || exists u :: 0 <= u < |s'.ws| && Covers(s'.ws[u], i, l)
    {
      if s'.sh.validationIdx > i && !Covers(s'.ws[w], i, l) {
        var u :| 0 <= u < |s.ws| && Covers(s.ws[u], i, l);
        assert Covers(s'.ws[u], i, l);
      } else if s'.sh.validationIdx > i {
        assert Covers(s'.ws[w], i, l);
      }
    }
  }

  lemma ValidationKept(s: State, s': State, w: nat)
    requires Moved(s, s', w) && ValidationPending(s)
    requires forall i :: 0 <= i < |s.sh.status| && s'.sh.status[i].status.Executed? ==>
      || s'.sh.validationIdx <= i || Judges(s'.ws[w], i)
      || (exists v :: 0 <= v < |s'.ws| && Peeks(s'.ws[v], i))
      || (s.sh.status[i].status.Executed? && s.sh.validationIdx > i && !Judges(s.ws[w], i))
    ensures ValidationPending(s')
  {
    forall i | 0 <= i < |s'.sh.status| && s'.sh.status[i].status.Executed?
      ensures s'.sh.validationIdx <= i || exists u :: 0 <= u < |s'.ws| && Judges(s'.ws[u], i)
    {
      if s'.sh.validationIdx > i && !Judges(s'.ws[w], i) {
        if v :| 0 <= v < |s'.ws| && Peeks(s'.ws[v], i) {
          assert Judges(s'.ws[v], i);
        } else {
          var u :| 0 <= u < |s.ws| && Judges(s.ws[u], i);
          assert Judges(s'.ws[u], i);
        }
      } else if s'.sh.validationIdx > i {
        assert Judges(s'.ws[w], i);
      }
    }
  }

  lemma MarkKept(s: State, s': State, w: nat)
    requires Moved(s, s', w) && MarkPending(s)
    requires s'.ws[w].Exec? && s'.ws[w].exec == Mark(false) ==> s'.sh.validationIdx <= s'.ws[w].tx
    requires forall u :: 0 <= u < |s.ws| && u != w && s.ws[u].Exec? && s.ws[u].exec == Mark(false) ==>
      || s'.sh.validationIdx <= s.ws[u].tx || Peeks(s'.ws[w], s.ws[u].tx)
      || (s.sh.validationIdx > s.ws[u].tx && !Peeks(s.ws[w], s.ws[u].tx))
    ensures MarkPending(s')
  {
    forall u | 0 <= u < |s'.ws| && s'.ws[u].Exec? && s'.ws[u].exec == Mark(false)
      ensures s'.sh.validationIdx <= s'.ws[u].tx || exists v :: 0 <= v < |s'.ws| && Peeks(s'.ws[v], s'.ws[u].tx)
    {
      if u != w && s'.sh.validationIdx > s.ws[u].tx {
        if !Peeks(s'.ws[w], s.ws[u].tx) {
          var v :| 0 <= v < |s.ws| && Peeks(s.ws[v], s.ws[u].tx);
          assert Peeks(s'.ws[v], s.ws[u].tx);
        } else {
          assert Peeks(s'.ws[w], s'.ws[u].tx);
        }
      }
    }
  }

  // ---------------------------------------------------------------- which reads a memory change can outdate

  /** Replacing or removing an estimate of `j` outdates nobody's reads. */
  lemma EstimateGone(sh: Shared, sh': Shared, j: nat, l: Loc)
    requires sh'.lastReads == sh.lastReads
    requires l in sh.data && l in sh'.data && j in sh.data[l] && sh.data[l][j].Estimate?
    requires forall k :: k != l ==> (k in sh'.data <==> k in sh.data) && (k in sh.data ==> sh'.data[k] == sh.data[k])
    requires forall k: nat :: k != j ==>
      (k in sh.data[l] <==> k in sh'.data[l]) && (k in sh.data[l] ==> sh.data[l][k] == sh'.data[l][k])
    ensures forall i: nat, k :: Stale(sh', i, k) ==> Stale(sh, i, k)
  {
    forall i: nat, k | Stale(sh', i, k) ensures Stale(sh, i, k) {
      if k == l && !Stale(sh, i, k) {
        MatchesIgnoresEstimate(sh.data[l], sh'.data[l], i, sh.lastReads[i][l], j);
      }
    }
  }

  /** A changed entry of `j` can outdate only reads of higher transactions. */
  lemma OnlyHigher(sh: Shared, sh': Shared, j: nat, l: Loc)
    requires sh'.lastReads == sh.lastReads && l in sh'.data
    requires forall k :: k != l ==> (k in sh'.data <==> k in sh.data) && (k in sh.data ==> sh'.data[k] == sh.data[k])
    requires forall k: nat :: k != j ==>
      (k in At(sh.data, l) <==> k in sh'.data[l]) && (k in At(sh.data, l) ==> At(sh.data, l)[k] == sh'.data[l][k])
    ensures forall i: nat, k :: i <= j && Stale(sh', i, k) ==> Stale(sh, i, k)
  {
    forall i: nat, k | i <= j && Stale(sh', i, k) ensures Stale(sh, i, k) {
      if k == l {
        MatchesLocal(At(sh.data, l), sh'.data[l], i, sh.lastReads[i][l]);
        if l !in sh.data && !Stale(sh, i, k) {
          StorageOnly(sh.lastReads[i][l], i);
        }
      }
    }
  }

  lemma {:induction false} StorageOnly(os: seq<ReadOrigin>, i: nat)
    requires os == [FromStorage]
    ensures Matches(map[], i, os)
    decreases i
  {
    if i != 0 {
      StorageOnly(os, i - 1);
    } else {
      assert os[1..] == [];
    }
  }
}
