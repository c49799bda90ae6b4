/** Values, versions and read origins of the multi-version memory (pevm `lib.rs`),
    and the two walks over the versions of one location: the read walk of `VmDb`
    with the value it hands to the interpreter, and the validation walk of `MvMemory`. */
module MemoryModel {
  import opened Collections

  /** A memory location is identified by its hash; hashes are taken to be injective. */
  type Loc = nat

  const U256_MAX: nat := 0xFFFF_FFFF_FFFF_FFFF_FFFF_FFFF_FFFF_FFFF_FFFF_FFFF_FFFF_FFFF_FFFF_FFFF_FFFF_FFFF

  datatype Account = Account(balance: nat, nonce: nat)

  /** What a transaction writes to a location. The lazy forms are balance deltas. */
  datatype MemoryValue =
    | Basic(account: Account)
    | CodeHash(hash: nat)
    | Storage(word: nat)
    | LazyRecipient(addition: nat)
    | LazySender(subtraction: nat)
    | SelfDestructed

  /** What a transaction sees when it reads a location. */
  datatype Value =
    | AccountValue(account: Option<Account>)
    | CodeValue(hash: Option<nat>)
    | SlotValue(word: nat)
    | Destroyed

  datatype MemoryEntry = Data(incarnation: nat, value: MemoryValue) | Estimate

  /** The entries of one location, by the index of the writing transaction. */
  type Versions = map<nat, MemoryEntry>

  datatype ReadOrigin = FromTx(tx: nat, incarnation: nat) | FromStorage

  type ReadSet = map<Loc, seq<ReadOrigin>>

  predicate IsLazy(v: MemoryValue) {
    v.LazyRecipient? || v.LazySender?
  }

  function SaturatingAdd(x: nat, y: nat): nat {
    if x + y > U256_MAX then U256_MAX else x + y
  }

  function SaturatingSub(x: nat, y: nat): nat {
    if x < y then 0 else x - y
  }

  /** The account found under a value; a missing account counts as empty. */
  function AccountOf(v: Value): Account {
    if v.AccountValue? && v.account.Some? then v.account.value else Account(0, 0)
  }

  /** The value of a location after one write, as the end-of-block evaluation applies it. */
  function Apply(w: MemoryValue, before: Value): Value {
    match w
    case Basic(a) => AccountValue(Some(a))
    case CodeHash(h) => CodeValue(Some(h))
    case Storage(x) => SlotValue(x)
    case LazyRecipient(x) =>
      var a := AccountOf(before);
      AccountValue(Some(Account(SaturatingAdd(a.balance, x), a.nonce)))
    case LazySender(x) =>
      var a := AccountOf(before);
      AccountValue(Some(Account(SaturatingSub(a.balance, x), a.nonce + 1)))
    case SelfDestructed => Destroyed
  }

  // ---------------------------------------------------------------- the read walk

  datatype WalkResult = Origins(origins: seq<ReadOrigin>) | BlockedBy(tx: nat)

  /** Entries below `i` from the highest down: collect lazy updates until an absolute
      value or storage is reached; an estimate on the way blocks the read. */
  function Walk(m: Versions, i: nat): WalkResult {
    if i == 0 then Origins([FromStorage])
    else if i - 1 !in m then Walk(m, i - 1)
    else match m[i - 1]
      case Estimate => BlockedBy(i - 1)
      case Data(inc, v) =>
        if !IsLazy(v) then Origins([FromTx(i - 1, inc)])
        else match Walk(m, i - 1)
          case BlockedBy(j) => BlockedBy(j)
          case Origins(os) => Origins([FromTx(i - 1, inc)] + os)
  }

  function AbsDiff(x: nat, y: nat): nat {
    if x < y then y - x else x - y
  }

  /** The lazy updates met on the way down: a magnitude with its sign, the number of sends, and whether there were
      any. */
  datatype Sum = Sum(amount: nat, positive: bool, nonces: nat, updates: bool)

  const NO_UPDATES := Sum(0, true, 0, false)

  /** One lazy update of the running sum. */
  function Accumulate(sum: Sum, w: MemoryValue): Sum
    requires IsLazy(w)
  {
    match w
    case LazyRecipient(x) =>
      if sum.positive then Sum(SaturatingAdd(sum.amount, x), true, sum.nonces, true)
      else Sum(AbsDiff(sum.amount, x), x >= sum.amount, sum.nonces, true)
    case LazySender(x) =>
      if sum.positive then Sum(AbsDiff(sum.amount, x), sum.amount >= x, sum.nonces + 1, true)
      else Sum(SaturatingAdd(sum.amount, x), false, sum.nonces + 1, true)
  }

  function Adjusted(a: Account, sum: Sum): Account {
    Account(if sum.positive then SaturatingAdd(a.balance, sum.amount)
      else SaturatingSub(a.balance, sum.amount), a.nonce + sum.nonces)
  }

  /** The value at the bottom of the walk, adjusted by what was met on the way. A missing account
      is only made up when the sum is not zero. */
  function Settle(bottom: Value, sum: Sum): Value {
    if !sum.updates then bottom
    else if bottom == AccountValue(None) && sum.amount == 0 then AccountValue(None)
    else AccountValue(Some(Adjusted(AccountOf(bottom), sum)))
  }

  /** The value found by walking down from `i` with `sum` already collected. */
  function WalkFrom(m: Versions, i: nat, base: Value, sum: Sum): Value {
    if i == 0 then Settle(base, sum)
    else if i - 1 !in m || m[i - 1].Estimate? then WalkFrom(m, i - 1, base, sum)
    else if IsLazy(m[i - 1].value) then WalkFrom(m, i - 1, base, Accumulate(sum, m[i - 1].value))
    else Settle(Apply(m[i - 1].value, base), sum)
  }

  /** The value a read by transaction `i` finds for a location whose storage value is `base`. */
  function WalkValue(m: Versions, i: nat, base: Value): Value {
    WalkFrom(m, i, base, NO_UPDATES)
  }

  /** The value the entries below `i` give to a location when they are applied one after another. */
  function ValueBelow(m: Versions, i: nat, base: Value): Value {
    if i == 0 then base
    else if i - 1 !in m || m[i - 1].Estimate? then ValueBelow(m, i - 1, base)
    else Apply(m[i - 1].value, ValueBelow(m, i - 1, base))
  }

  datatype ReadResult = Got(origins: seq<ReadOrigin>) | Blocking(tx: nat) | Inconsistent

  /** A repeated read compares each origin with the recorded ones while it walks. */
  function Reread(m: Versions, i: nat, prev: seq<ReadOrigin>): (r: ReadResult)
    ensures r.Got? ==> r.origins == prev
  {
    if i == 0 then (if prev == [FromStorage] then Got(prev) else Inconsistent)
    else if i - 1 !in m then Reread(m, i - 1, prev)
    else match m[i - 1]
      case Estimate => Blocking(i - 1)
      case Data(inc, v) =>
        if prev == [] || prev[0] != FromTx(i - 1, inc) then Inconsistent
        else if !IsLazy(v) then Got(prev)
        else match Reread(m, i - 1, prev[1..])
          case Got(os) => Got(prev)
          case r => r
  }

  /** A read of a location by transaction `i`. A code hash read does not wait for an
      estimate: it falls back to storage and leaves the conflict to validation. */
  function Intercept(m: Versions, i: nat, isCode: bool, prev: Option<seq<ReadOrigin>>): ReadResult {
    if isCode && Walk(m, i).BlockedBy? then
      if prev == None || prev == Some([FromStorage]) then Got([FromStorage]) else Inconsistent
    else match prev
      case Some(os) => Reread(m, i, os)
      case None =>
        match Walk(m, i)
        case Origins(os) => Got(os)
        case BlockedBy(j) => Blocking(j)
  }

  /** The value handed to the interpreter by a read that succeeded. */
  function InterceptedValue(m: Versions, i: nat, isCode: bool, base: Value): Value {
    if isCode && Walk(m, i).BlockedBy? then base else WalkValue(m, i, base)
  }

  // ---------------------------------------------------------------- the validation walk

  /** `validate_read_locations` for one location: the recorded origins against the entries below `i`. */
  predicate Matches(m: Versions, i: nat, os: seq<ReadOrigin>)
    decreases |os|, i
  {
    if os == [] then true
    else if i == 0 then os[0].FromStorage? && Matches(m, 0, os[1..])
    else if i - 1 !in m then Matches(m, i - 1, os)
    else os[0].FromTx? && m[i - 1].Data? && os[0] == FromTx(i - 1, m[i - 1].incarnation) && Matches(m, i - 1, os[1..])
  }

  /** Entries at or above `i` do not take part in the validation of transaction `i`. */
  lemma {:induction false} MatchesLocal(m: Versions, m': Versions, i: nat, os: seq<ReadOrigin>)
    requires forall k: nat :: k < i ==> (k in m <==> k in m') && (k in m ==> m[k] == m'[k])
    ensures Matches(m, i, os) == Matches(m', i, os)
    decreases |os|, i
  {
    if os != [] {
      if i == 0 {
        MatchesLocal(m, m', 0, os[1..]);
      } else {
        MatchesLocal(m, m', i - 1, os);
        MatchesLocal(m, m', i - 1, os[1..]);
      }
    }
  }

  /** A successful validation never looked at an estimate: replacing or removing one keeps it successful. */
  lemma {:induction false} MatchesIgnoresEstimate(m: Versions, m': Versions, i: nat, os: seq<ReadOrigin>, j: nat)
    requires Matches(m, i, os)
    requires j in m && m[j].Estimate?
    requires forall k: nat :: k != j ==> (k in m <==> k in m') && (k in m ==> m[k] == m'[k])
    ensures Matches(m', i, os)
    decreases |os|, i
  {
    if os != [] {
      if i == 0 {
        MatchesIgnoresEstimate(m, m', 0, os[1..], j);
      } else if i - 1 !in m {
        MatchesIgnoresEstimate(m, m', i - 1, os, j);
      } else {
        MatchesIgnoresEstimate(m, m', i - 1, os[1..], j);
      }
    }
  }

  // ---------------------------------------------------------------- versions and their values

  /** What one incarnation read, wrote and returned. */
  datatype Execution = Execution(readSet: ReadSet, writeSet: map<Loc, MemoryValue>, result: nat)

  /** Every incarnation recorded so far, by (transaction, incarnation). */
  type History = map<(nat, nat), Execution>

  /** `os` is a chain of recorded versions of `l` below `i`: lazy ones first, ending in an absolute value or storage. */
  ghost predicate OriginsOk(h: History, l: Loc, i: nat, os: seq<ReadOrigin>)
    decreases |os|
  {
    && os != []
    && match os[0]
       case FromStorage => |os| == 1
       case FromTx(j, inc) =>
         && j < i && (j, inc) in h && l in h[(j, inc)].writeSet
         && if IsLazy(h[(j, inc)].writeSet[l]) then OriginsOk(h, l, j, os[1..]) else |os| == 1
  }

  /** The value a chain of origins stands for, with `sum` already collected. It depends only on
      recorded versions, never on the live memory. */
  ghost function EvalFrom(h: History, l: Loc, i: nat, os: seq<ReadOrigin>, base: Value, sum: Sum): Value
    requires OriginsOk(h, l, i, os)
    decreases |os|
  {
    match os[0]
    case FromStorage => Settle(base, sum)
    case FromTx(j, inc) =>
      var w := h[(j, inc)].writeSet[l];
      if IsLazy(w) then EvalFrom(h, l, j, os[1..], base, Accumulate(sum, w)) else Settle(Apply(w, base), sum)
  }

  ghost function Eval(h: History, l: Loc, i: nat, os: seq<ReadOrigin>, base: Value): Value
    requires OriginsOk(h, l, i, os)
  {
    EvalFrom(h, l, i, os, base, NO_UPDATES)
  }

  /** Live data entries carry the value their version recorded. */
  ghost predicate Agrees(h: History, l: Loc, m: Versions) {
    forall j :: j in m && m[j].Data? ==>
      && (j, m[j].incarnation) in h
      && l in h[(j, m[j].incarnation)].writeSet
      && m[j].value == h[(j, m[j].incarnation)].writeSet[l]
  }

  /** Recording further versions does not change what known origins mean. */
  lemma {:induction false} EvalStable(h: History, h': History, l: Loc, i: nat, i': nat, os: seq<ReadOrigin>,
                                      base: Value, sum: Sum)
    requires OriginsOk(h, l, i, os) && i <= i'
    requires forall v :: v in h ==> v in h' && h'[v] == h[v]
    ensures OriginsOk(h', l, i', os)
    ensures EvalFrom(h', l, i', os, base, sum) == EvalFrom(h, l, i, os, base, sum)
    decreases |os|
  {
    if os[0].FromTx? {
      var j, inc := os[0].tx, os[0].incarnation;
      assert (j, inc) in h;
      var w := h[(j, inc)].writeSet[l];
      if IsLazy(w) {
        EvalStable(h, h', l, j, j, os[1..], base, Accumulate(sum, w));
      }
    }
  }

  /** A walk that is not blocked finds known versions, and the value they stand for. */
  lemma {:induction false} WalkEvaluates(h: History, l: Loc, m: Versions, i: nat, base: Value, sum: Sum)
    requires Agrees(h, l, m)
    ensures Walk(m, i).Origins? ==>
      var os := Walk(m, i).origins;
      OriginsOk(h, l, i, os) && EvalFrom(h, l, i, os, base, sum) == WalkFrom(m, i, base, sum)
    decreases i
  {
    if i != 0 {
      var below := Walk(m, i - 1);
      if i - 1 !in m {
        WalkEvaluates(h, l, m, i - 1, base, sum);
        if below.Origins? {
          EvalStable(h, h, l, i - 1, i, below.origins, base, sum);
        }
      } else if m[i - 1].Data? {
        var inc, v := m[i - 1].incarnation, m[i - 1].value;
        if IsLazy(v) {
          WalkEvaluates(h, l, m, i - 1, base, Accumulate(sum, v));
          if below.Origins? {
            var os := [FromTx(i - 1, inc)] + below.origins;
            assert os[1..] == below.origins;
            assert OriginsOk(h, l, i, os);
          }
        }
      }
    }
  }

  /** Which values the walk finds does not depend on the incarnations that wrote them. */
  lemma {:induction false} WalkIgnoresIncarnations(m: Versions, m': Versions, i: nat, base: Value, sum: Sum)
    requires forall k: nat :: k < i ==>
      (k in m <==> k in m') && (k in m ==> m[k].Data? && m'[k].Data? && m[k].value == m'[k].value)
    ensures WalkFrom(m, i, base, sum) == WalkFrom(m', i, base, sum)
    ensures ValueBelow(m, i, base) == ValueBelow(m', i, base)
    decreases i
  {
    if i != 0 {
      WalkIgnoresIncarnations(m, m', i - 1, base,
        if i - 1 in m && IsLazy(m[i - 1].value) then Accumulate(sum, m[i - 1].value) else sum);
    }
  }

  /** Validation succeeds exactly when reading again would find the same origins. */
  lemma {:induction false} MatchesIsWalk(h: History, l: Loc, m: Versions, i: nat, i': nat, os: seq<ReadOrigin>)
    requires Agrees(h, l, m) && OriginsOk(h, l, i', os)
    ensures Matches(m, i, os) <==> Walk(m, i) == Origins(os)
    decreases |os|, i
  {
    if i == 0 {
      if os[0].FromStorage? {
        assert os == [FromStorage];
      }
    } else if i - 1 !in m {
      MatchesIsWalk(h, l, m, i - 1, i', os);
    } else if m[i - 1].Data? && os[0] == FromTx(i - 1, m[i - 1].incarnation) {
      if IsLazy(m[i - 1].value) {
        MatchesIsWalk(h, l, m, i - 1, i - 1, os[1..]);
        assert os == [os[0]] + os[1..];
      } else {
        assert os == [os[0]];
      }
    }
  }

  /** A consistent second read finds the origins of the first one. */
  lemma {:induction false} RereadIsWalk(h: History, l: Loc, m: Versions, i: nat, i': nat, os: seq<ReadOrigin>)
    requires Agrees(h, l, m) && OriginsOk(h, l, i', os)
    ensures Reread(m, i, os).Got? ==> Reread(m, i, os).origins == os && Walk(m, i) == Origins(os)
    decreases |os|, i
  {
    if i != 0 {
      if i - 1 !in m {
        RereadIsWalk(h, l, m, i - 1, i', os);
      } else if m[i - 1].Data? && os[0] == FromTx(i - 1, m[i - 1].incarnation) {
        if IsLazy(m[i - 1].value) {
          RereadIsWalk(h, l, m, i - 1, i - 1, os[1..]);
          assert os == [os[0]] + os[1..];
        } else {
          assert os == [os[0]];
        }
      }
    }
  }

  /** What a successful read gives the interpreter: known origins, and the value they stand for. */
  lemma InterceptEvaluates(h: History, l: Loc, m: Versions, i: nat, isCode: bool, prev: Option<seq<ReadOrigin>>,
                           base: Value)
    requires Agrees(h, l, m)
    requires prev.Some? ==> OriginsOk(h, l, i, prev.value)
    ensures var r := Intercept(m, i, isCode, prev);
      r.Got? ==>
        && OriginsOk(h, l, i, r.origins)
        && Eval(h, l, i, r.origins, base) == InterceptedValue(m, i, isCode, base)
        && (prev.Some? ==> r.origins == prev.value)
  {
    WalkEvaluates(h, l, m, i, base, NO_UPDATES);
    if prev.Some? {
      RereadIsWalk(h, l, m, i, i, prev.value);
    }
  }
}
