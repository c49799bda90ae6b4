/** What a read means, said without the walks: the closest writer below decides, lazy updates above it are added up,
    and storage answers when nobody below has written. */
module ReadMeaning {
  import opened Collections
  import opened MemoryModel
  import opened BalanceWalk
  import opened TransactionProgram

  /** `k` is the closest entry below `i`. */
  ghost predicate Closest(m: Versions, i: nat, k: nat) {
    k < i && k in m && forall j :: k < j < i ==> j !in m
  }

  ghost predicate Untouched(m: Versions, i: nat) {
    forall j: nat :: j < i ==> j !in m
  }

  /** Every entry from `lo` up to `i` is a lazy update. */
  ghost predicate LazyFrom(m: Versions, lo: nat, i: nat) {
    forall j: nat :: lo <= j < i && j in m ==> m[j].Data? && IsLazy(m[j].value)
  }

  /** Starting from `start`, adding up the lazy updates from `lo` on never leaves the range of a balance. */
  ghost predicate StaysInRange(m: Versions, lo: nat, i: nat, start: nat) {
    forall j: nat :: lo <= j <= i ==> 0 <= start + Net(m, j) - Net(m, lo) <= U256_MAX
  }

  /** The account `a` after the lazy updates from `lo` up to `i`. */
  ghost function Plus(a: Account, m: Versions, lo: nat, i: nat): Account
    requires lo <= i && StaysInRange(m, lo, i, a.balance) && Sends(m, lo) <= Sends(m, i)
  {
    Account(a.balance + Net(m, i) - Net(m, lo), a.nonce + Sends(m, i) - Sends(m, lo))
  }

  lemma {:induction false} SendsGrow(m: Versions, lo: nat, i: nat)
    requires lo <= i
    ensures Sends(m, lo) <= Sends(m, i)
  {
    if lo < i {
      SendsGrow(m, lo, i - 1);
    }
  }

  // ---------------------------------------------------------------- slots and code hashes

  lemma {:induction false} ReadsClosest(m: Versions, i: nat, k: nat, base: Value)
    requires Closest(m, i, k)
    ensures m[k].Estimate? ==> Walk(m, i) == BlockedBy(k)
    ensures m[k].Data? && !IsLazy(m[k].value) ==>
      Walk(m, i) == Origins([FromTx(k, m[k].incarnation)]) && WalkValue(m, i, base) == Apply(m[k].value, base)
  {
    if k < i - 1 {
      ReadsClosest(m, i - 1, k, base);
    }
  }

  lemma {:induction false} ReadsStorage(m: Versions, i: nat, base: Value)
    requires Untouched(m, i)
    ensures Walk(m, i) == Origins([FromStorage]) && WalkValue(m, i, base) == base
  {
    if i != 0 {
      ReadsStorage(m, i - 1, base);
    }
  }

  /** What reading an entry gives: a written word is returned and its version remembered, a destroyed account shows,
      and an estimate is waited for, except that a code hash read takes the stored word then. */
  ghost predicate GivesEntry(e: MemoryEntry, k: nat, code: bool, base: Value, r: ReadResult, v: Value) {
    match e
    case Estimate => if code then r == Got([FromStorage]) && v == base else r == Blocking(k)
    case Data(inc, w) =>
      match w
      case Storage(x) => r == Got([FromTx(k, inc)]) && v == SlotValue(x)
      case CodeHash(h) => r == Got([FromTx(k, inc)]) && v == CodeValue(Some(h))
      case Basic(a) => r == Got([FromTx(k, inc)]) && v == AccountValue(Some(a))
      case SelfDestructed => r == Got([FromTx(k, inc)]) && v == Destroyed
      case LazyRecipient(_) => true
      case LazySender(_) => true
  }

  /** A first read finds the entry of the closest writer below, or what is stored when nobody below has written. */
  lemma FirstRead(m: Versions, i: nat, code: bool, base: Value)
    ensures forall k :: Closest(m, i, k) ==>
      GivesEntry(m[k], k, code, base, Intercept(m, i, code, None), InterceptedValue(m, i, code, base))
    ensures Untouched(m, i) ==>
      Intercept(m, i, code, None) == Got([FromStorage]) && InterceptedValue(m, i, code, base) == base
  {
    if Untouched(m, i) {
      ReadsStorage(m, i, base);
    }
    forall k | Closest(m, i, k)
      ensures GivesEntry(m[k], k, code, base, Intercept(m, i, code, None), InterceptedValue(m, i, code, base))
    {
      ReadsClosest(m, i, k, base);
    }
  }

  // ---------------------------------------------------------------- accounts

  /** One more entry: nothing changes without a value, and a lazy update is added. */
  lemma OneMore(m: Versions, i: nat, base: Value)
    requires i > 0 && InRange(m, i - 1, base) && (i - 1 in m ==> m[i - 1].Data? && IsLazy(m[i - 1].value))
    requires 0 <= Folded(m, i - 1, base).balance + Net(m, i) - Net(m, i - 1) <= U256_MAX
    ensures InRange(m, i, base) && (OnlyLazy(m, i) <==> OnlyLazy(m, i - 1))
    ensures Sends(m, i - 1) <= Sends(m, i)
    ensures i - 1 in m ==>
      && ValueBelow(m, i, base).AccountValue? && ValueBelow(m, i, base).account.Some?
      && Folded(m, i, base).balance == Folded(m, i - 1, base).balance + Net(m, i) - Net(m, i - 1)
      && Folded(m, i, base).nonce == Folded(m, i - 1, base).nonce + Sends(m, i) - Sends(m, i - 1)
    ensures i - 1 !in m ==>
      && ValueBelow(m, i, base) == ValueBelow(m, i - 1, base)
      && Net(m, i) == Net(m, i - 1) && Sends(m, i) == Sends(m, i - 1)
  {
  }

  lemma AtValue(m: Versions, k: nat, base: Value)
    requires k in m && m[k].Data? && m[k].value.Basic? && m[k].value.account.balance <= U256_MAX
    ensures InRange(m, k + 1, base) && !OnlyLazy(m, k + 1)
    ensures ValueBelow(m, k + 1, base) == AccountValue(Some(m[k].value.account))
  {
  }

  lemma {:induction false} FoldedAbove(m: Versions, k: nat, i: nat, base: Value)
    requires k < i && k in m && m[k].Data? && m[k].value.Basic? && LazyFrom(m, k + 1, i)
    requires StaysInRange(m, k + 1, i, m[k].value.account.balance)
    ensures Sends(m, k + 1) <= Sends(m, i) && InRange(m, i, base) && !OnlyLazy(m, i)
    ensures ValueBelow(m, i, base) == AccountValue(Some(Plus(m[k].value.account, m, k + 1, i)))
  {
    hide InRange, OnlyLazy, ValueBelow, Net, Sends;
    var a := m[k].value.account;
    assert 0 <= a.balance + Net(m, i) - Net(m, k + 1) <= U256_MAX;
    SendsGrow(m, k + 1, i);
    if k + 1 < i {
      FoldedAbove(m, k, i - 1, base);
      OneMore(m, i, base);
    } else {
      AtValue(m, k, base);
    }
  }

  lemma {:induction false} FoldedFromStorage(m: Versions, i: nat, base: Value)
    requires base.AccountValue? && LazyFrom(m, 0, i) && StaysInRange(m, 0, i, AccountOf(base).balance)
    ensures Sends(m, 0) <= Sends(m, i) && InRange(m, i, base) && OnlyLazy(m, i)
    ensures Folded(m, i, base) == Plus(AccountOf(base), m, 0, i)
    ensures ValueBelow(m, i, base) == if Touched(m, i) then AccountValue(Some(Folded(m, i, base))) else base
    ensures !Touched(m, i) ==> Net(m, i) == 0 && Sends(m, i) == 0
  {
    SendsGrow(m, 0, i);
    if i == 0 {
      assert 0 <= AccountOf(base).balance + Net(m, 0) - Net(m, 0) <= U256_MAX;
    } else {
      SendsGrow(m, 0, i - 1);
      FoldedFromStorage(m, i - 1, base);
      assert 0 <= AccountOf(base).balance + Net(m, i) - Net(m, 0) <= U256_MAX;
    }
  }

  /** An account read above an absolute value finds its balance plus what was received minus what was sent since, and
      its nonce plus the number of sends. */
  lemma AccountAbove(m: Versions, k: nat, i: nat, base: Value)
    requires k < i && k in m && m[k].Data? && m[k].value.Basic? && LazyFrom(m, k + 1, i)
    requires StaysInRange(m, k + 1, i, m[k].value.account.balance)
    ensures Sends(m, k + 1) <= Sends(m, i)
    ensures InterceptedValue(m, i, false, base) == AccountValue(Some(Plus(m[k].value.account, m, k + 1, i)))
  {
    FoldedAbove(m, k, i, base);
    WalkIsFold(m, i, base);
  }

  /** The same above storage; an account that is not stored is there if and only if the updates do not cancel out. */
  lemma AccountAboveStorage(m: Versions, i: nat, base: Value)
    requires base.AccountValue? && LazyFrom(m, 0, i) && StaysInRange(m, 0, i, AccountOf(base).balance)
    ensures Sends(m, 0) <= Sends(m, i)
    ensures InterceptedValue(m, i, false, base) ==
      if base == AccountValue(None) && Net(m, i) == 0 then base else AccountValue(Some(Plus(AccountOf(base), m, 0, i)))
  {
    FoldedFromStorage(m, i, base);
    WalkIsFold(m, i, base);
  }

  // ---------------------------------------------------------------- the sequential state

  /** What one transaction changes in the sequential execution: nothing unless it completes, and then exactly the
      locations it writes, each to what was written or by the amount that was sent. */
  lemma SequentialWrites(b: Block, i: nat, l: Loc)
    requires i < |b.txs|
    ensures var before, after, o := SequentialState(b, i)(l), SequentialState(b, i + 1)(l), SequentialOutcome(b, i);
      if !o.Done? || l !in o.writeSet then after == before
      else match o.writeSet[l]
        case Storage(x) => after == SlotValue(x)
        case CodeHash(h) => after == CodeValue(Some(h))
        case Basic(a) => after == AccountValue(Some(a))
        case SelfDestructed => after == Destroyed
        case LazyRecipient(x) =>
          var a := AccountOf(before);
          a.balance + x <= U256_MAX ==> after == AccountValue(Some(Account(a.balance + x, a.nonce)))
        case LazySender(x) =>
          var a := AccountOf(before);
          x <= a.balance ==> after == AccountValue(Some(Account(a.balance - x, a.nonce + 1)))
  {
  }
}
