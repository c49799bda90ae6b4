/** `VmDb`: the reads of one incarnation, as the methods that walk the entries of a
    location, record the origins and hand a value to the interpreter. */
module VmDatabase {
  import opened Collections
  import opened MemoryModel
  import opened BalanceWalk
  import opened ReadMeaning
  import opened MvMemoryClass

  datatype ReadError =
    | BlockingEstimate(tx: nat)
    | BlockingNonce(tx: nat)
    | InvalidNonce(tx: nat)
    | InconsistentRead
    | InvalidMemoryValueType
    | SelfDestructedAccount

  datatype Result<+T> = Ok(value: T) | Err(error: ReadError)

  // ---------------------------------------------------------------- the backward walk

  /** The entries of an account location; balances are 256-bit words. */
  ghost predicate OnlyAccounts(m: Versions) {
    forall k :: k in m && m[k].Data? ==>
      (m[k].value.Basic? && m[k].value.account.balance <= U256_MAX) || IsLazy(m[k].value)
  }

  /** Indices without an entry do not take part in any of the walks. */
  lemma {:induction false} Skips(m: Versions, i: nat, i': nat, base: Value, sum: Sum, prev: seq<ReadOrigin>)
    requires i' <= i && forall k: nat :: i' <= k < i ==> k !in m
    ensures Walk(m, i) == Walk(m, i') && Reread(m, i, prev) == Reread(m, i', prev)
    ensures WalkFrom(m, i, base, sum) == WalkFrom(m, i', base, sum)
  {
    if i' < i {
      Skips(m, i - 1, i', base, sum, prev);
    }
  }

  ghost predicate SameRead(m: Versions, i: nat, hi: nat, prev: seq<ReadOrigin>, taken: seq<ReadOrigin>) {
    if prev == [] then
      Walk(m, i) == match Walk(m, hi) case BlockedBy(j) => BlockedBy(j) case Origins(os) => Origins(taken + os)
    else
      && taken <= prev
      && match Reread(m, hi, prev[|taken|..])
         case Got(_) => Reread(m, i, prev) == Got(prev)
         case r => Reread(m, i, prev) == r
  }

  lemma OriginStep(m: Versions, i: nat, hi: nat, prev: seq<ReadOrigin>, taken: seq<ReadOrigin>)
    requires hi in m && m[hi].Data? && SameRead(m, i, hi + 1, prev, taken)
    requires prev != [] ==> |taken| < |prev| && prev[|taken|] == FromTx(hi, m[hi].incarnation)
    ensures IsLazy(m[hi].value) ==> SameRead(m, i, hi, prev, taken + [FromTx(hi, m[hi].incarnation)])
    ensures !IsLazy(m[hi].value) ==> prev != [] ==> Reread(m, i, prev) == Got(prev)
    ensures !IsLazy(m[hi].value) ==> prev == [] ==> Walk(m, i) == Origins(taken + [FromTx(hi, m[hi].incarnation)])
  {
    var o := FromTx(hi, m[hi].incarnation);
    if prev == [] {
      if IsLazy(m[hi].value) && Walk(m, hi).Origins? {
        assert taken + ([o] + Walk(m, hi).origins) == taken + [o] + Walk(m, hi).origins;
      }
    } else {
      assert prev[|taken|..][1..] == prev[|taken + [o]|..];
      assert prev[..|taken| + 1] == taken + [o];
    }
  }

  datatype Walked =
    | Stopped(error: ReadError)
    | Reached(final: Option<Account>, origins: seq<ReadOrigin>, sum: Sum)

  /** How a complete walk relates to the protocol's read and the value it finds. */
  ghost predicate Ends(m: Versions, i: nat, prev: seq<ReadOrigin>, base: Value, w: Walked)
    requires w.Reached?
  {
    && WalkValue(m, i, base) == Settle(if w.final.Some? then AccountValue(w.final) else base, w.sum)
    && (w.final.Some? ==> w.final.value.balance <= U256_MAX)
    && (!w.sum.updates ==> w.sum == NO_UPDATES)
    && if w.final.Some? then (if prev == [] then Walk(m, i) == Origins(w.origins) else Reread(m, i, prev) == Got(prev))
       else SameRead(m, i, 0, prev, w.origins)
  }

  /** How a walk that stopped relates to the protocol's read. */
  ghost predicate Stops(m: Versions, i: nat, prev: seq<ReadOrigin>, error: ReadError) {
    match error
    case BlockingEstimate(j) => if prev == [] then Walk(m, i) == BlockedBy(j) else Reread(m, i, prev) == Blocking(j)
    case InconsistentRead => prev != [] && Reread(m, i, prev) == Inconsistent
    case _ => false
  }

  /** The loop invariant of the walk. */
  ghost predicate Halfway(m: Versions, i: nat, hi: nat, prev: seq<ReadOrigin>, taken: seq<ReadOrigin>, base: Value,
                          sum: Sum) {
    && SameRead(m, i, hi, prev, taken)
    && WalkValue(m, i, base) == WalkFrom(m, hi, base, sum)
    && (!sum.updates ==> sum == NO_UPDATES)
  }

  lemma WalkStarts(m: Versions, i: nat, prev: seq<ReadOrigin>, base: Value)
    ensures Halfway(m, i, i, prev, [], base, NO_UPDATES)
  {
    assert prev[0..] == prev;
  }

  lemma WalkSkips(m: Versions, i: nat, hi: nat, hi': nat, prev: seq<ReadOrigin>, taken: seq<ReadOrigin>, base: Value,
                  sum: Sum)
    requires Halfway(m, i, hi, prev, taken, base, sum) && hi' <= hi && forall k: nat :: hi' <= k < hi ==> k !in m
    ensures Halfway(m, i, hi', prev, taken, base, sum)
  {
    Skips(m, hi, hi', base, sum, if prev == [] then [] else prev[|taken|..]);
  }

  lemma WalkEnds(m: Versions, i: nat, prev: seq<ReadOrigin>, taken: seq<ReadOrigin>, base: Value, sum: Sum)
    requires Halfway(m, i, 0, prev, taken, base, sum)
    ensures Ends(m, i, prev, base, Reached(None, taken, sum))
  {
  }

  lemma WalkStops(m: Versions, i: nat, hi: nat, prev: seq<ReadOrigin>, taken: seq<ReadOrigin>, base: Value, sum: Sum)
    requires Halfway(m, i, hi + 1, prev, taken, base, sum) && hi in m
    ensures m[hi].Estimate? ==> Stops(m, i, prev, BlockingEstimate(hi))
    ensures prev != [] ==> |taken| <= |prev|
    ensures m[hi].Data? && prev != [] && (|prev| == |taken| || prev[|taken|] != FromTx(hi, m[hi].incarnation)) ==>
      Stops(m, i, prev, InconsistentRead)
  {
  }

  lemma WalkReaches(m: Versions, i: nat, hi: nat, prev: seq<ReadOrigin>, taken: seq<ReadOrigin>, base: Value, sum: Sum)
    requires Halfway(m, i, hi + 1, prev, taken, base, sum)
    requires OnlyAccounts(m) && hi in m && m[hi].Data? && m[hi].value.Basic?
    requires prev != [] ==> |taken| < |prev| && prev[|taken|] == FromTx(hi, m[hi].incarnation)
    ensures Ends(m, i, prev, base, Reached(Some(m[hi].value.account), taken + [FromTx(hi, m[hi].incarnation)], sum))
  {
    OriginStep(m, i, hi, prev, taken);
  }

  lemma WalkGoesOn(m: Versions, i: nat, hi: nat, prev: seq<ReadOrigin>, taken: seq<ReadOrigin>, base: Value, sum: Sum)
    requires Halfway(m, i, hi + 1, prev, taken, base, sum) && hi in m && m[hi].Data? && IsLazy(m[hi].value)
    requires prev != [] ==> |taken| < |prev| && prev[|taken|] == FromTx(hi, m[hi].incarnation)
    ensures Halfway(m, i, hi, prev, taken + [FromTx(hi, m[hi].incarnation)], base, Accumulate(sum, m[hi].value))
  {
    OriginStep(m, i, hi, prev, taken);
  }

  /** The protocol's read behind a stopped walk. */
  lemma StoppedRead(m: Versions, i: nat, rs: ReadSet, l: Loc, error: ReadError)
    requires Stops(m, i, if l in rs then rs[l] else [], error)
    ensures match Intercept(m, i, false, Previous(rs, l))
      case Blocking(j) => error == BlockingEstimate(j)
      case Inconsistent => error == InconsistentRead
      case Got(_) => false
  {
  }

  /** The protocol's read behind a complete walk: storage is the last origin when no absolute value was found. */
  lemma ReachedRead(m: Versions, i: nat, rs: ReadSet, l: Loc, base: Value, w: Walked)
    requires w.Reached? && Ends(m, i, if l in rs then rs[l] else [], base, w)
    ensures var prev := if l in rs then rs[l] else [];
      Intercept(m, i, false, Previous(rs, l)) ==
        if w.final.Some? then Got(if prev == [] then w.origins else prev)
        else if prev == [] then Got(w.origins + [FromStorage])
        else if |prev| == |w.origins| + 1 && prev[|prev| - 1] == FromStorage then Got(prev)
        else Inconsistent
  {
    var prev := if l in rs then rs[l] else [];
    if prev != [] && w.final.None? && |prev| == |w.origins| + 1 {
      assert prev[|w.origins|..] == [prev[|prev| - 1]];
    }
  }

  lemma EntryIsAccount(m: Versions, hi: nat)
    requires OnlyAccounts(m) && hi in m && m[hi].Data?
    ensures m[hi].value.Basic? || IsLazy(m[hi].value)
  {
  }

  /** What the code does with the bottom of a complete walk is settling it: an account that is not stored
      is made up exactly when the sum is not zero, and the sum is added to what is there. */
  lemma BottomIsSettled(m: Versions, i: nat, prev: seq<ReadOrigin>, storage: Option<Account>, w: Walked)
    requires w.Reached? && Ends(m, i, prev, AccountValue(storage), w)
    requires storage.Some? ==> storage.value.balance <= U256_MAX
    ensures var bottom := if w.final.Some? then w.final else if storage.Some? then storage
        else if w.sum.amount > 0 then Some(Account(0, 0)) else None;
      WalkValue(m, i, AccountValue(storage)) ==
        AccountValue(if bottom.Some? then Some(Adjusted(bottom.value, w.sum)) else None)
  {
    hide WalkValue;
  }

  /** The account an address has for transaction `i`: the absolute value or the stored account at the bottom, plus what
      was received and minus what was sent above it. */
  ghost predicate AccountMeaning(m: Versions, i: nat, storage: Option<Account>, r: Option<Account>) {
    && (forall k: nat ::
          k < i && k in m && m[k].Data? && m[k].value.Basic? && LazyFrom(m, k + 1, i)
          && StaysInRange(m, k + 1, i, m[k].value.account.balance) && Sends(m, k + 1) <= Sends(m, i) ==>
            r == Some(Plus(m[k].value.account, m, k + 1, i)))
    && (var a := AccountOf(AccountValue(storage));
        LazyFrom(m, 0, i) && StaysInRange(m, 0, i, a.balance) && Sends(m, 0) <= Sends(m, i) ==>
          r == if storage == None && Net(m, i) == 0 then None else Some(Plus(a, m, 0, i)))
  }

  lemma MeansAccount(m: Versions, i: nat, storage: Option<Account>)
    ensures forall r :: WalkValue(m, i, AccountValue(storage)) == AccountValue(r) ==> AccountMeaning(m, i, storage, r)
  {
    var base := AccountValue(storage);
    forall k: nat | k < i && k in m && m[k].Data? && m[k].value.Basic? && LazyFrom(m, k + 1, i)
      && StaysInRange(m, k + 1, i, m[k].value.account.balance) && Sends(m, k + 1) <= Sends(m, i)
      ensures WalkValue(m, i, base) == AccountValue(Some(Plus(m[k].value.account, m, k + 1, i)))
    {
      AccountAbove(m, k, i, base);
    }
    if LazyFrom(m, 0, i) && StaysInRange(m, 0, i, AccountOf(base).balance) {
      AccountAboveStorage(m, i, base);
    }
  }

  /** The recorded origins of a location; an entry without origins counts as none. */
  function Previous(rs: ReadSet, l: Loc): Option<seq<ReadOrigin>> {
    if l in rs && rs[l] != [] then Some(rs[l]) else None
  }

  /** A read of `l` may use `origin`: it is the first one, or an earlier one used the same. */
  predicate SameOrigin(rs: ReadSet, l: Loc, origin: ReadOrigin) {
    l in rs && rs[l] != [] ==> rs[l] == [origin]
  }

  /** The protocol's read of a word behind the closest writer. */
  lemma ReadAt(m: Versions, i: nat, k: nat, code: bool, base: Value, rs: ReadSet, l: Loc)
    requires Closest(m, i, k) && (m[k].Data? ==> !IsLazy(m[k].value)) && (l in rs ==> |rs[l]| <= 1)
    ensures m[k].Data? ==>
      && InterceptedValue(m, i, code, base) == Apply(m[k].value, base)
      && Intercept(m, i, code, Previous(rs, l)) ==
           if SameOrigin(rs, l, FromTx(k, m[k].incarnation)) then Got([FromTx(k, m[k].incarnation)]) else Inconsistent
    ensures m[k].Estimate? && !code ==> Intercept(m, i, code, Previous(rs, l)) == Blocking(k)
    ensures m[k].Estimate? && code ==>
      && InterceptedValue(m, i, code, base) == base
      && Intercept(m, i, code, Previous(rs, l)) ==
           if SameOrigin(rs, l, FromStorage) then Got([FromStorage]) else Inconsistent
  {
    ReadsClosest(m, i, k, base);
    Skips(m, i, k + 1, base, NO_UPDATES, if l in rs then rs[l] else []);
  }

  /** The protocol's read of a word that nobody below has written. */
  lemma ReadBelow(m: Versions, i: nat, code: bool, base: Value, rs: ReadSet, l: Loc)
    requires Untouched(m, i) && (l in rs ==> |rs[l]| <= 1)
    ensures InterceptedValue(m, i, code, base) == base
    ensures Intercept(m, i, code, Previous(rs, l)) ==
      if SameOrigin(rs, l, FromStorage) then Got([FromStorage]) else Inconsistent
  {
    ReadsStorage(m, i, base);
    Skips(m, i, 0, base, NO_UPDATES, if l in rs then rs[l] else []);
  }

  /** The parts of a transaction that reads look at: its two account locations and its nonce. */
  datatype TxEnv = TxEnv(from: Loc, to: Option<Loc>, nonce: Option<nat>)

  datatype AccountInfo = AccountInfo(account: Account, codeHash: Option<nat>)

  class VmDb {
    const txIdx: nat
    const env: TxEnv
    var toCodeHash: Option<nat>
    var isLazy: bool
    var readSet: ReadSet

    constructor (tx: nat, e: TxEnv)
      ensures txIdx == tx && env == e && readSet == map[] && toCodeHash == None && !isLazy
    {
      txIdx, env, readSet, toCodeHash, isLazy := tx, e, map[], None, false;
    }

    /** The rest of `VmDb::new`: a call to an address without code is lazy when the memory knows one of its two
        accounts. `known` are the locations of the memory, `code` the entries of the recipient's code hash and `l` its
        location. */
    method Prepare(known: set<Loc>, code: Versions, l: Loc, storage: Option<nat>) returns (r: Result<bool>)
      requires readSet == map[] && toCodeHash == None && !isLazy
      requires forall k :: k in code && code[k].Data? ==> code[k].value.CodeHash? || code[k].value.SelfDestructed?
      modifies this
      ensures env.to == None ==> r == Ok(false) && readSet == map[] && !isLazy
      ensures env.to.Some? ==>
        var value := InterceptedValue(code, txIdx, true, CodeValue(storage));
        if value == Destroyed then r == Err(SelfDestructedAccount) && !isLazy
        else r == Ok(isLazy) && CodeValue(toCodeHash) == value
      ensures isLazy <==> r.Ok? && env.to.Some? && toCodeHash == None && (env.from in known || env.to.value in known)
    {
      if env.to.Some? {
        var hash := ReadCodeHash(code, l, storage);
        if hash.Err? {
          return Err(hash.error);
        }
        toCodeHash := hash.value;
        isLazy := toCodeHash.None? && (env.from in known || env.to.value in known);
      }
      return Ok(isLazy);
    }

    /** `Database::basic`: mock accounts for a lazy transfer, otherwise the account of the walk with its code hash. */
    method Basic(m: Versions, l: Loc, storage: Option<Account>, code: Versions, codeLoc: Loc, codeStorage: Option<nat>)
        returns (r: Result<Option<AccountInfo>>)
      requires OnlyAccounts(m) && (storage.Some? ==> storage.value.balance <= U256_MAX) && codeLoc != l
      requires forall k :: k in code && code[k].Data? ==> code[k].value.CodeHash? || code[k].value.SelfDestructed?
      requires codeLoc in readSet ==> |readSet[codeLoc]| <= 1
      modifies this`readSet
      ensures isLazy && l == env.from ==>
        && r == Ok(Some(AccountInfo(Account(U256_MAX, if env.nonce.Some? then env.nonce.value else 1), None)))
        && readSet == old(readSet)
      ensures isLazy && l != env.from && Some(l) == env.to ==> r == Ok(None) && readSet == old(readSet)
      ensures !Mocked(l) ==>
        var expected := if l == env.from then env.nonce else None;
        var hash := InterceptedValue(code, txIdx, true, CodeValue(codeStorage));
        match Intercept(m, txIdx, false, Previous(old(readSet), l))
        case Blocking(j) => r == Err(BlockingEstimate(j))
        case Inconsistent => r == Err(InconsistentRead)
        case Got(os) =>
          var value := InterceptedValue(m, txIdx, false, AccountValue(storage));
          && l in readSet && readSet[l] == os && value.AccountValue?
          && if value.account.None? then r == Ok(None)
             else if expected.Some? && expected.value != value.account.value.nonce then
               r == Err(if txIdx > 0 then BlockingNonce(txIdx - 1) else InvalidNonce(0))
             else if Some(l) == env.to then r == Ok(Some(AccountInfo(value.account.value, toCodeHash)))
             else if hash == Destroyed then r == Err(SelfDestructedAccount)
             else if Intercept(code, txIdx, true, Previous(old(readSet), codeLoc)).Inconsistent? then
               r == Err(InconsistentRead)
             else
               && r.Ok? && r.value.Some? && r.value.value.account == value.account.value
               && CodeValue(r.value.value.codeHash) == hash
    {
      hide Intercept, InterceptedValue, OnlyAccounts, InRange, Forgotten, ValueBelow;
      if isLazy && l == env.from {
        return Ok(Some(AccountInfo(Account(U256_MAX, if env.nonce.Some? then env.nonce.value else 1), None)));
      }
      if isLazy && Some(l) == env.to {
        return Ok(None);
      }
      var account := ReadBasic(m, l, storage, if l == env.from then env.nonce else None);
      if account.Err? {
        return Err(account.error);
      }
      if account.value.None? {
        return Ok(None);
      }
      if Some(l) == env.to {
        return Ok(Some(AccountInfo(account.value.value, toCodeHash)));
      }
      var hash := ReadCodeHash(code, codeLoc, codeStorage);
      if hash.Err? {
        return Err(hash.error);
      }
      return Ok(Some(AccountInfo(account.value.value, hash.value)));
    }

    predicate Mocked(l: Loc)
      reads this
    {
      isLazy && (l == env.from || Some(l) == env.to)
    }

    /** Read an account: walk the entries below backwards, then add what was summed up to the absolute value
        or the account in storage. `expected` is the nonce of the transaction when the address is its sender. */
    method ReadBasic(m: Versions, l: Loc, storage: Option<Account>, expected: Option<nat>)
        returns (r: Result<Option<Account>>)
      requires OnlyAccounts(m) && (storage.Some? ==> storage.value.balance <= U256_MAX)
      modifies this`readSet
      ensures forall k :: k != l ==>
        (k in readSet <==> k in old(readSet)) && (k in readSet ==> readSet[k] == old(readSet[k]))
      ensures match Intercept(m, txIdx, false, Previous(old(readSet), l))
        case Blocking(j) => r == Err(BlockingEstimate(j))
        case Inconsistent => r == Err(InconsistentRead)
        case Got(os) =>
          var value := InterceptedValue(m, txIdx, false, AccountValue(storage));
          && l in readSet && readSet[l] == os && value.AccountValue?
          && (r.Err? <==> value.account.Some? && expected.Some? && expected.value != value.account.value.nonce)
          && (r.Err? ==> r.error == if txIdx > 0 then BlockingNonce(txIdx - 1) else InvalidNonce(0))
          && (r.Ok? ==> AccountValue(r.value) == value)
      ensures InRange(m, txIdx, AccountValue(storage)) && r.Ok? ==>
        (AccountValue(r.value) == ValueBelow(m, txIdx, AccountValue(storage)) <==>
          !Forgotten(m, txIdx, AccountValue(storage)))
      ensures r.Ok? ==> AccountMeaning(m, txIdx, storage, r.value)
    {
      hide Ends, Stops, Intercept, InRange, ValueBelow, WalkValue, Forgotten, OnlyAccounts, Previous, AccountMeaning;
      var prev := if l in readSet then readSet[l] else [];
      readSet := readSet[l := prev];
      var walked := WalkBack(m, prev, AccountValue(storage));
      if walked.Stopped? {
        StoppedRead(m, txIdx, old(readSet), l, walked.error);
        return Err(walked.error);
      }
      ReachedRead(m, txIdx, old(readSet), l, AccountValue(storage), walked);
      var final, newOrigins := walked.final, walked.origins;
      if final.None? {
        if prev == [] {
          newOrigins := newOrigins + [FromStorage];
        } else if |prev| != |newOrigins| + 1 || prev[|prev| - 1] != FromStorage {
          return Err(InconsistentRead);
        }
        final := match storage
          case Some(basic) => Some(basic)
          case None => if walked.sum.amount > 0 then Some(Account(0, 0)) else None;
      }
      if prev == [] {
        readSet := readSet[l := newOrigins];
      }
      BottomIsSettled(m, txIdx, prev, storage, walked);
      MeansAccount(m, txIdx, storage);
      if InRange(m, txIdx, AccountValue(storage)) {
        WalkIsFold(m, txIdx, AccountValue(storage));
      }
      if final.Some? {
        var account := final.value.(nonce := final.value.nonce + walked.sum.nonces);
        if expected.Some? && expected.value != account.nonce {
          return if txIdx > 0 then Err(BlockingNonce(txIdx - 1)) else Err(InvalidNonce(txIdx));
        }
        account := account.(balance := Adjusted(final.value, walked.sum).balance);
        return Ok(Some(account));
      }
      return Ok(None);
    }

    /** The loop over `range(..tx_idx)` from its end. */
    method WalkBack(m: Versions, prev: seq<ReadOrigin>, ghost base: Value) returns (w: Walked)
      requires OnlyAccounts(m)
      ensures if w.Reached? then Ends(m, txIdx, prev, base, w) else Stops(m, txIdx, prev, w.error)
    {
      hide Halfway, Stops, Ends, OnlyAccounts;
      var origins: seq<ReadOrigin> := [];
      var sum := NO_UPDATES;
      var hi: nat := txIdx;
      WalkStarts(m, txIdx, prev, base);
      while true
        invariant hi <= txIdx && (prev != [] ==> |origins| <= |prev|)
        invariant Halfway(m, txIdx, hi, prev, origins, base, sum)
        decreases hi
      {
        var found, idx := NextBack(m, hi);
        WalkSkips(m, txIdx, hi, if found then idx + 1 else 0, prev, origins, base, sum);
        if !found {
          WalkEnds(m, txIdx, prev, origins, base, sum);
          return Reached(None, origins, sum);
        }
        WalkStops(m, txIdx, idx, prev, origins, base, sum);
        if m[idx].Estimate? {
          return Stopped(BlockingEstimate(idx));
        }
        var origin := FromTx(idx, m[idx].incarnation);
        if prev != [] && |prev| == |origins| {
          return Stopped(InconsistentRead);
        }
        if prev != [] && prev[|origins|] != origin {
          return Stopped(InconsistentRead);
        }
        if m[idx].value.Basic? {
          WalkReaches(m, txIdx, idx, prev, origins, base, sum);
          return Reached(Some(m[idx].value.account), origins + [origin], sum);
        }
        EntryIsAccount(m, idx);
        WalkGoesOn(m, txIdx, idx, prev, origins, base, sum);
        origins := origins + [origin];
        sum := Accumulate(sum, m[idx].value);
        hi := idx;
      }
    }

    /** Read a storage slot from the closest writer below, or from storage. */
    method ReadStorage(m: Versions, l: Loc, storage: nat) returns (r: Result<nat>)
      requires forall k :: k in m && m[k].Data? ==> m[k].value.Storage?
      requires l in readSet ==> |readSet[l]| <= 1
      modifies this`readSet
      ensures forall k :: k != l ==>
        (k in readSet <==> k in old(readSet)) && (k in readSet ==> readSet[k] == old(readSet[k]))
      ensures l in readSet && |readSet[l]| <= 1
      ensures match Intercept(m, txIdx, false, Previous(old(readSet), l))
        case Blocking(j) => r == Err(BlockingEstimate(j))
        case Inconsistent => r == Err(InconsistentRead)
        case Got(os) =>
          readSet[l] == os && r.Ok? && SlotValue(r.value) == InterceptedValue(m, txIdx, false, SlotValue(storage))
      ensures forall k :: Closest(m, txIdx, k) ==>
        r == if m[k].Estimate? then Err(BlockingEstimate(k))
             else if SameOrigin(old(readSet), l, FromTx(k, m[k].incarnation)) then Ok(m[k].value.word)
             else Err(InconsistentRead)
      ensures Untouched(m, txIdx) ==>
        r == if SameOrigin(old(readSet), l, FromStorage) then Ok(storage) else Err(InconsistentRead)
    {
      hide Intercept, InterceptedValue;
      readSet := readSet[l := if l in readSet then readSet[l] else []];
      var found, idx := NextBack(m, txIdx);
      if found {
        ReadAt(m, txIdx, idx, false, SlotValue(storage), old(readSet), l);
      } else {
        ReadBelow(m, txIdx, false, SlotValue(storage), old(readSet), l);
      }
      if found {
        if m[idx].Estimate? {
          return Err(BlockingEstimate(idx));
        }
        var ok := PushOrigin(l, FromTx(idx, m[idx].incarnation));
        return if ok then Ok(m[idx].value.word) else Err(InconsistentRead);
      }
      var ok := PushOrigin(l, FromStorage);
      return if ok then Ok(storage) else Err(InconsistentRead);
    }

    /** Read a code hash: an estimate does not block, the read falls back to storage. */
    method ReadCodeHash(m: Versions, l: Loc, storage: Option<nat>) returns (r: Result<Option<nat>>)
      requires forall k :: k in m && m[k].Data? ==> m[k].value.CodeHash? || m[k].value.SelfDestructed?
      requires l in readSet ==> |readSet[l]| <= 1
      modifies this`readSet
      ensures forall k :: k != l ==>
        (k in readSet <==> k in old(readSet)) && (k in readSet ==> readSet[k] == old(readSet[k]))
      ensures l in readSet && |readSet[l]| <= 1
      ensures var value := InterceptedValue(m, txIdx, true, CodeValue(storage));
        if value == Destroyed then r == Err(SelfDestructedAccount) else
        match Intercept(m, txIdx, true, Previous(old(readSet), l))
        case Blocking(j) => false
        case Inconsistent => r == Err(InconsistentRead)
        case Got(os) => readSet[l] == os && r.Ok? && CodeValue(r.value) == value
      ensures forall k :: Closest(m, txIdx, k) && m[k].Data? ==>
        r == if m[k].value.SelfDestructed? then Err(SelfDestructedAccount)
             else if SameOrigin(old(readSet), l, FromTx(k, m[k].incarnation)) then Ok(Some(m[k].value.hash))
             else Err(InconsistentRead)
      ensures Untouched(m, txIdx) || (exists k :: Closest(m, txIdx, k) && m[k].Estimate?) ==>
        r == if SameOrigin(old(readSet), l, FromStorage) then Ok(storage) else Err(InconsistentRead)
    {
      hide Intercept, InterceptedValue;
      readSet := readSet[l := if l in readSet then readSet[l] else []];
      var found, idx := NextBack(m, txIdx);
      if found {
        ReadAt(m, txIdx, idx, true, CodeValue(storage), old(readSet), l);
      } else {
        ReadBelow(m, txIdx, true, CodeValue(storage), old(readSet), l);
      }
      if found && m[idx].Data? {
        if m[idx].value.SelfDestructed? {
          return Err(SelfDestructedAccount);
        }
        var ok := PushOrigin(l, FromTx(idx, m[idx].incarnation));
        return if ok then Ok(Some(m[idx].value.hash)) else Err(InconsistentRead);
      }
      var ok := PushOrigin(l, FromStorage);
      return if ok then Ok(storage) else Err(InconsistentRead);
    }

    /** `push_origin`: record the first origin, compare later ones with the last. */
    method PushOrigin(l: Loc, origin: ReadOrigin) returns (ok: bool)
      requires l in readSet && |readSet[l]| <= 1
      modifies this`readSet
      ensures ok <==> old(readSet[l]) == [] || old(readSet[l]) == [origin]
      ensures readSet == if ok then old(readSet)[l := [origin]] else old(readSet)
    {
      if readSet[l] != [] {
        return readSet[l][|readSet[l]| - 1] == origin;
      }
      assert readSet[l] + [origin] == [origin];
      readSet := readSet[l := readSet[l] + [origin]];
      return true;
    }
  }

  /** The walk does forget an account: it received 5 and sent 5, so it has nonce 1, and it reads as missing. */
  method SpentAccountReadsNone() returns (r: Result<Option<Account>>)
    ensures r == Ok(None)
    ensures var m: Versions := map[0 := Data(0, LazyRecipient(5)), 1 := Data(0, LazySender(5))];
      ValueBelow(m, 2, AccountValue(None)) == AccountValue(Some(Account(0, 1)))
  {
    var m: Versions := map[0 := Data(0, LazyRecipient(5)), 1 := Data(0, LazySender(5))];
    var db := new VmDb(2, TxEnv(1, None, None));
    assert Walk(m, 1) == Origins([FromTx(0, 0), FromStorage])
      && Walk(m, 2) == Origins([FromTx(1, 0), FromTx(0, 0), FromStorage]);
    assert ValueBelow(m, 1, AccountValue(None)) == AccountValue(Some(Account(5, 0)));
    var sum := Accumulate(NO_UPDATES, LazySender(5));
    assert WalkFrom(m, 1, AccountValue(None), sum) ==
      WalkFrom(m, 0, AccountValue(None), Accumulate(sum, LazyRecipient(5)));
    r := db.ReadBasic(m, 0, None, None);
  }

  /** So does a reward of nothing to a new account: the fold creates the account, and it reads as missing. */
  method UnpaidAccountReadsNone() returns (r: Result<Option<Account>>)
    ensures r == Ok(None)
    ensures var m: Versions := map[0 := Data(0, LazyRecipient(0))];
      ValueBelow(m, 1, AccountValue(None)) == AccountValue(Some(Account(0, 0)))
  {
    var m: Versions := map[0 := Data(0, LazyRecipient(0))];
    var db := new VmDb(1, TxEnv(1, None, None));
    assert Walk(m, 1) == Origins([FromTx(0, 0), FromStorage]);
    assert WalkFrom(m, 0, AccountValue(None), Accumulate(NO_UPDATES, LazyRecipient(0))) == AccountValue(None);
    r := db.ReadBasic(m, 0, None, None);
  }
}
