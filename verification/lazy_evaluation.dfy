/** The end-of-block evaluation of lazily updated accounts in `pevm.rs`: one forward
    pass over the write history of an address, which completes the state changes of
    every transaction in that history. */
module LazyEvaluation {
  import opened Collections
  import opened MemoryModel
  import opened BalanceWalk
  import opened VmDatabase

  /** An account in the state changes of one transaction. */
  datatype EvmAccount = EvmAccount(info: Account, codeHash: Option<nat>, slots: map<nat, nat>)

  /** What the transactions of a block did to one address, `None` meaning that it was removed. */
  type Changes = map<nat, Option<EvmAccount>>

  datatype Evaluation =
    | Evaluated(account: Account, changes: Changes)
    | LackOfFundForMaxFee(tx: nat)
    | NonceMismatch(tx: nat)
    | Unreachable(tx: nat)

  ghost predicate CanPay(m: Versions, k: nat, storage: Option<Account>, maxFee: nat) {
    k in m && m[k].Data? && m[k].value.LazySender? ==> Folded(m, k, AccountValue(storage)).balance >= maxFee
  }

  ghost predicate SignedNonce(m: Versions, k: nat, storage: Option<Account>, signed: Option<nat>) {
    k in m && m[k].Data? && signed.Some? ==> Folded(m, k + 1, AccountValue(storage)).nonce == signed.value + 1
  }

  /** The checks made on the entry of transaction `k`: a lazy sender can pay its largest fee, and the
      nonce of a caller is the one it signed. */
  ghost predicate Checked(m: Versions, k: nat, storage: Option<Account>, maxFee: seq<nat>, signed: seq<Option<nat>>)
    requires k < |maxFee| == |signed|
  {
    CanPay(m, k, storage, maxFee[k]) && SignedNonce(m, k, storage, signed[k])
  }

  /** The change transaction `k` is left with when the account behind it is `a`: an empty account is removed
      under EIP-161, an explicit write keeps its code and slots, and an implicit one has the stored code. */
  predicate Completes(before: Changes, after: Changes, k: nat, a: Account, codeHash: Option<nat>, eip161: bool) {
    && k in after
    && (after[k].None? <==> eip161 && codeHash.None? && a == Account(0, 0))
    && (after[k].Some? ==>
          && after[k].value.info == a
          && if k in before && before[k].Some? then after[k].value == before[k].value.(info := a)
             else after[k].value.codeHash == codeHash && after[k].value.slots == map[])
  }

  /** The changes of the transactions below `k` are complete, the others are as before. */
  ghost predicate CompletedBelow(m: Versions, k: nat, storage: Option<Account>, codeHash: Option<nat>, eip161: bool,
                                 before: Changes, after: Changes) {
    && (forall j: nat :: j < k && j in m ==>
       Completes(before, after, j, Folded(m, j + 1, AccountValue(storage)), codeHash, eip161))
    && (forall j: nat :: !(j < k && j in m) ==> (j in after <==> j in before) && (j in after ==> after[j] == before[j]))
  }

  /** `signed[k]` is the nonce of transaction `k` when the address is its caller. */
  method Evaluate(m: Versions, storage: Option<Account>, codeHash: Option<nat>, eip161: bool, maxFee: seq<nat>,
                  signed: seq<Option<nat>>, before: Changes)
    returns (r: Evaluation)
    requires |maxFee| == |signed| && OnlyAccounts(m)
    requires forall k :: k in m ==> k < |maxFee| && m[k].Data?
    ensures r.Evaluated? <==> forall k: nat :: k < |maxFee| ==> Checked(m, k, storage, maxFee, signed)
    ensures r.Evaluated? ==>
      && r.account == Folded(m, |maxFee|, AccountValue(storage))
      && CompletedBelow(m, |maxFee|, storage, codeHash, eip161, before, r.changes)
    ensures !r.Evaluated? ==>
      && r.tx < |maxFee| && !Checked(m, r.tx, storage, maxFee, signed)
      && (forall k: nat :: k < r.tx ==> Checked(m, k, storage, maxFee, signed))
      && (r.LackOfFundForMaxFee? <==> !CanPay(m, r.tx, storage, maxFee[r.tx]))
      && (!r.LackOfFundForMaxFee? ==>
            (r.Unreachable? <==> Folded(m, r.tx + 1, AccountValue(storage)).nonce == 0))
  {
    hide CompletedBelow, OnlyAccounts, Checked;
    var balance: nat, nonce: nat := 0, 0;
    var first: nat := 0;
    while first < |maxFee| && first !in m
      invariant first <= |maxFee| && forall k: nat :: k < first ==> k !in m
    {
      first := first + 1;
    }
    if first == |maxFee| || !m[first].value.Basic? {
      if storage.Some? {
        balance, nonce := storage.value.balance, storage.value.nonce;
      }
    }
    Untouched(m, first, storage);
    NothingBelow(m, first, storage, codeHash, eip161, before);
    NothingChecked(m, first, storage, maxFee, signed);
    var changes: Changes := before;
    for k := first to |maxFee|
      invariant first <= |maxFee|
      invariant k > first || first == |maxFee| || !m[first].value.Basic? ==>
        Account(balance, nonce) == Folded(m, k, AccountValue(storage))
      invariant forall j: nat :: j < k ==> Checked(m, j, storage, maxFee, signed)
      invariant CompletedBelow(m, k, storage, codeHash, eip161, before, changes)
    {
      ghost var earlier := changes;
      if k in m {
        EntryIsAccount(m, k);
        OneChecked(m, k, storage, maxFee, signed);
        match m[k].value {
          case Basic(info) =>
            balance, nonce := info.balance, info.nonce;
          case LazyRecipient(addition) =>
            balance := SaturatingAdd(balance, addition);
          case LazySender(subtraction) =>
            if balance < maxFee[k] {
              return LackOfFundForMaxFee(k);
            }
            balance := SaturatingSub(balance, subtraction);
            nonce := nonce + 1;
        }
        assert Account(balance, nonce) == Folded(m, k + 1, AccountValue(storage));
        if signed[k].Some? {
          if nonce == 0 {
            return Unreachable(k);
          }
          if signed[k].value != nonce - 1 {
            return NonceMismatch(k);
          }
        }
        StillBefore(m, k, storage, codeHash, eip161, before, changes);
        changes := Complete(changes, k, Account(balance, nonce), codeHash, eip161, before);
      } else {
        NothingToCheck(m, k, storage, maxFee, signed);
      }
      OneMoreCompleted(m, k, storage, codeHash, eip161, before, earlier, changes);
    }
    return Evaluated(Account(balance, nonce), changes);
  }

  /** The state change of one transaction. */
  method Complete(changes: Changes, k: nat, a: Account, codeHash: Option<nat>, eip161: bool, ghost before: Changes)
    returns (changes': Changes)
    requires (k in changes <==> k in before) && (k in changes ==> changes[k] == before[k])
    ensures forall j: nat :: j != k ==>
      (j in changes' <==> j in changes) && (j in changes' ==> changes'[j] == changes[j])
    ensures Completes(before, changes', k, a, codeHash, eip161)
  {
    var account := if k in changes then changes[k] else None;
    if eip161 && codeHash.None? && a.nonce == 0 && a.balance == 0 {
      account := None;
    } else if account.Some? {
      account := Some(account.value.(info := a));
    } else {
      account := Some(EvmAccount(a, codeHash, map[]));
    }
    changes' := changes[k := account];
  }

  lemma OneChecked(m: Versions, k: nat, storage: Option<Account>, maxFee: seq<nat>, signed: seq<Option<nat>>)
    requires k < |maxFee| == |signed|
    ensures Checked(m, k, storage, maxFee, signed) <==>
      CanPay(m, k, storage, maxFee[k]) && SignedNonce(m, k, storage, signed[k])
  {
  }

  lemma NothingToCheck(m: Versions, k: nat, storage: Option<Account>, maxFee: seq<nat>, signed: seq<Option<nat>>)
    requires k < |maxFee| == |signed| && k !in m
    ensures Checked(m, k, storage, maxFee, signed)
  {
  }

  lemma NothingChecked(m: Versions, k: nat, storage: Option<Account>, maxFee: seq<nat>, signed: seq<Option<nat>>)
    requires k <= |maxFee| == |signed| && forall j: nat :: j < k ==> j !in m
    ensures forall j: nat :: j < k ==> Checked(m, j, storage, maxFee, signed)
  {
  }

  lemma NothingBelow(m: Versions, k: nat, storage: Option<Account>, codeHash: Option<nat>, eip161: bool,
                     before: Changes)
    requires forall j: nat :: j < k ==> j !in m
    ensures CompletedBelow(m, k, storage, codeHash, eip161, before, before)
  {
  }

  lemma StillBefore(m: Versions, k: nat, storage: Option<Account>, codeHash: Option<nat>, eip161: bool,
                    before: Changes, changes: Changes)
    requires CompletedBelow(m, k, storage, codeHash, eip161, before, changes)
    ensures (k in changes <==> k in before) && (k in changes ==> changes[k] == before[k])
  {
    assert !(k < k && k in m);
  }

  lemma OneMoreCompleted(m: Versions, k: nat, storage: Option<Account>, codeHash: Option<nat>, eip161: bool,
                         before: Changes, changes: Changes, changes': Changes)
    requires CompletedBelow(m, k, storage, codeHash, eip161, before, changes)
    requires forall j: nat :: j != k || k !in m ==>
      (j in changes' <==> j in changes) && (j in changes' ==> changes'[j] == changes[j])
    requires k in m ==> Completes(before, changes', k, Folded(m, k + 1, AccountValue(storage)), codeHash, eip161)
    ensures CompletedBelow(m, k + 1, storage, codeHash, eip161, before, changes')
  {
    hide Folded;
  }

  lemma {:induction false} Untouched(m: Versions, i: nat, storage: Option<Account>)
    requires forall k: nat :: k < i ==> k !in m
    ensures ValueBelow(m, i, AccountValue(storage)) == AccountValue(storage)
  {
    if i != 0 {
      Untouched(m, i - 1, storage);
    }
  }

  /** A history that passes the checks never runs below zero: when the fee bound covers what a sender is charged
      and no balance overflows, every balance of the fold is in range, and so every read of an account that is
      not forgotten finds the folded one. */
  lemma {:induction false} CheckedIsInRange(m: Versions, i: nat, storage: Option<Account>, maxFee: seq<nat>,
                                            signed: seq<Option<nat>>)
    requires i <= |maxFee| == |signed| && OnlyAccounts(m)
    requires forall k: nat :: k < i ==> Checked(m, k, storage, maxFee, signed)
    requires forall k: nat :: k < i && k in m && m[k].Data? && m[k].value.LazySender? ==>
      m[k].value.subtraction <= maxFee[k]
    requires forall k: nat :: k < i && k in m && m[k].Data? && m[k].value.LazyRecipient? ==>
      Folded(m, k, AccountValue(storage)).balance + m[k].value.addition <= U256_MAX
    requires storage.Some? ==> storage.value.balance <= U256_MAX
    ensures InRange(m, i, AccountValue(storage))
    ensures WalkValue(m, i, AccountValue(storage)) == ValueBelow(m, i, AccountValue(storage)) <==>
      !Forgotten(m, i, AccountValue(storage))
  {
    if i != 0 {
      CheckedIsInRange(m, i - 1, storage, maxFee, signed);
      FoldedInRange(m, i - 1, AccountValue(storage));
      assert Checked(m, i - 1, storage, maxFee, signed);
    }
    WalkIsFold(m, i, AccountValue(storage));
  }
}
