/** The backward walk of an account read against the forward fold of the end-of-block
    evaluation: exactly when the two give the same value. */
module BalanceWalk {
  import opened Collections
  import opened MemoryModel

  /** The account the entries below `i` give to an address, a missing one counting as empty. */
  function Folded(m: Versions, i: nat, base: Value): Account {
    AccountOf(ValueBelow(m, i, base))
  }

  function Delta(w: MemoryValue): int {
    match w
    case LazyRecipient(x) => x
    case LazySender(x) => var s: int := x; -s
    case _ => 0
  }

  /** No balance of the forward fold below `i` leaves the U256 range. */
  ghost predicate InRange(m: Versions, i: nat, base: Value) {
    if i == 0 then AccountOf(base).balance <= U256_MAX
    else if i - 1 !in m || m[i - 1].Estimate? then InRange(m, i - 1, base)
    else match m[i - 1].value
      case Basic(a) => a.balance <= U256_MAX
      case w => !IsLazy(w) || (InRange(m, i - 1, base) && 0 <= Folded(m, i - 1, base).balance + Delta(w) <= U256_MAX)
  }

  /** The sum of all lazy updates below `i`. */
  function Net(m: Versions, i: nat): int {
    if i == 0 then 0
    else if i - 1 !in m || m[i - 1].Estimate? then Net(m, i - 1)
    else Delta(m[i - 1].value) + Net(m, i - 1)
  }

  /** The number of lazy sends below `i`. */
  function Sends(m: Versions, i: nat): nat {
    if i == 0 then 0
    else if i - 1 !in m || m[i - 1].Estimate? then Sends(m, i - 1)
    else (if m[i - 1].value.LazySender? then 1 else 0) + Sends(m, i - 1)
  }

  /** Every value below `i` is a lazy update. */
  ghost predicate OnlyLazy(m: Versions, i: nat) {
    i == 0 || (OnlyLazy(m, i - 1) && (i - 1 in m && m[i - 1].Data? ==> IsLazy(m[i - 1].value)))
  }

  /** There is a value below `i`. */
  ghost predicate Touched(m: Versions, i: nat) {
    i > 0 && (Touched(m, i - 1) || (i - 1 in m && m[i - 1].Data?))
  }

  /** The inputs on which the walk forgets an account: none in storage, at least one update and
      only lazy ones, and they cancel out. */
  ghost predicate Forgotten(m: Versions, i: nat, base: Value) {
    base == AccountValue(None) && OnlyLazy(m, i) && Touched(m, i) && Net(m, i) == 0
  }

  function Signed(sum: Sum): int {
    var x: int := sum.amount; if sum.positive then x else -x
  }

  /** Half-way down: the updates between `hi` and `i` add up to `sum`. */
  ghost predicate Summed(m: Versions, i: nat, hi: nat, base: Value, sum: Sum) {
    && InRange(m, hi, base)
    && Folded(m, i, base).balance == Folded(m, hi, base).balance + Signed(sum)
    && Folded(m, i, base).nonce == Folded(m, hi, base).nonce + sum.nonces
    && (OnlyLazy(m, i) <==> OnlyLazy(m, hi))
    && (Touched(m, i) <==> sum.updates || Touched(m, hi))
    && if sum.updates then ValueBelow(m, i, base) == AccountValue(Some(Folded(m, i, base)))
       else sum == NO_UPDATES && ValueBelow(m, i, base) == ValueBelow(m, hi, base)
  }

  lemma {:induction false} FoldedInRange(m: Versions, i: nat, base: Value)
    requires InRange(m, i, base)
    ensures 0 <= Folded(m, i, base).balance <= U256_MAX
  {
    if i != 0 && (i - 1 !in m || m[i - 1].Estimate?) {
      FoldedInRange(m, i - 1, base);
    }
  }

  /** On an address known only through lazy updates the fold is their sum and the number of sends. */
  lemma {:induction false} FoldedOnlyLazy(m: Versions, i: nat)
    requires OnlyLazy(m, i) && InRange(m, i, AccountValue(None))
    ensures Folded(m, i, AccountValue(None)).balance == Net(m, i)
      && Folded(m, i, AccountValue(None)).nonce == Sends(m, i)
    ensures Touched(m, i) ==>
      ValueBelow(m, i, AccountValue(None)) == AccountValue(Some(Folded(m, i, AccountValue(None))))
  {
    if i != 0 {
      FoldedOnlyLazy(m, i - 1);
    }
  }

  /** Magnitude and sign follow the signed sum: in range, nothing saturates. */
  lemma LazyStep(m: Versions, i: nat, hi: nat, base: Value, sum: Sum)
    requires hi in m && m[hi].Data? && IsLazy(m[hi].value)
    requires InRange(m, i, base) && Summed(m, i, hi + 1, base, sum)
    ensures Summed(m, i, hi, base, Accumulate(sum, m[hi].value))
  {
    FoldedInRange(m, i, base);
    FoldedInRange(m, hi, base);
    assert Folded(m, hi + 1, base).balance == Folded(m, hi, base).balance + Delta(m[hi].value);
  }

  /** At the bottom of the walk the sum makes up the difference to the fold, except when an account
      that is not stored comes out empty. */
  lemma SettleIsFold(m: Versions, i: nat, base: Value, bottom: Value, sum: Sum)
    requires InRange(m, i, base) && 0 <= AccountOf(bottom).balance <= U256_MAX
    requires Folded(m, i, base).balance == AccountOf(bottom).balance + Signed(sum)
    requires Folded(m, i, base).nonce == AccountOf(bottom).nonce + sum.nonces
    requires if sum.updates then ValueBelow(m, i, base) == AccountValue(Some(Folded(m, i, base)))
      else ValueBelow(m, i, base) == bottom
    ensures if sum.updates && sum.amount == 0 && bottom == AccountValue(None) then Settle(bottom, sum) ==
      AccountValue(None)
            else Settle(bottom, sum) == ValueBelow(m, i, base)
  {
    FoldedInRange(m, i, base);
  }

  lemma EndsInStorage(m: Versions, i: nat, base: Value, sum: Sum)
    requires InRange(m, i, base) && Summed(m, i, 0, base, sum)
    ensures Settle(base, sum) == if Forgotten(m, i, base) then AccountValue(None) else ValueBelow(m, i, base)
  {
    hide SaturatingAdd, SaturatingSub, Adjusted;
    SettleIsFold(m, i, base, base, sum);
    if base == AccountValue(None) && OnlyLazy(m, i) {
      FoldedOnlyLazy(m, i);
    }
  }

  lemma EndsInValue(m: Versions, i: nat, hi: nat, base: Value, sum: Sum)
    requires InRange(m, i, base) && Summed(m, i, hi + 1, base, sum)
    requires hi in m && m[hi].Data? && !IsLazy(m[hi].value)
    ensures Settle(Apply(m[hi].value, base), sum) == ValueBelow(m, i, base) && !Forgotten(m, i, base)
  {
    hide SaturatingAdd, SaturatingSub, Adjusted;
    SettleIsFold(m, i, base, Apply(m[hi].value, base), sum);
  }

  lemma {:induction false} WalkFromIsFold(m: Versions, i: nat, hi: nat, base: Value, sum: Sum)
    requires InRange(m, i, base) && Summed(m, i, hi, base, sum)
    ensures WalkFrom(m, hi, base, sum) == if Forgotten(m, i, base) then AccountValue(None) else ValueBelow(m, i, base)
    decreases hi
  {
    hide Accumulate, Settle, Apply, Forgotten;
    if hi == 0 {
      EndsInStorage(m, i, base, sum);
    } else if hi - 1 !in m || m[hi - 1].Estimate? {
      assert Summed(m, i, hi - 1, base, sum);
      WalkFromIsFold(m, i, hi - 1, base, sum);
    } else if IsLazy(m[hi - 1].value) {
      LazyStep(m, i, hi - 1, base, sum);
      WalkFromIsFold(m, i, hi - 1, base, Accumulate(sum, m[hi - 1].value));
    } else {
      EndsInValue(m, i, hi - 1, base, sum);
    }
  }

  /** In range, the walk finds the value of the fold if and only if it does not forget the account. A
      forgotten account reads as missing, although the fold gives it the nonce of its sends. */
  lemma WalkIsFold(m: Versions, i: nat, base: Value)
    requires InRange(m, i, base)
    ensures WalkValue(m, i, base) == ValueBelow(m, i, base) <==> !Forgotten(m, i, base)
    ensures Forgotten(m, i, base) ==>
      WalkValue(m, i, base) == AccountValue(None)
        && ValueBelow(m, i, base) == AccountValue(Some(Account(0, Sends(m, i))))
  {
    WalkFromIsFold(m, i, i, base, NO_UPDATES);
    if Forgotten(m, i, base) {
      FoldedOnlyLazy(m, i);
    }
  }
}
