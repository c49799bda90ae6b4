/** The choice of `VmDb::new` between a lazy and an explicit raw transfer: whichever is taken, the
    same transfers succeed, and they leave the same values. */
module LazyTransfers {
  import opened Collections
  import opened MemoryModel
  import opened TransactionProgram
  import opened LazyEvaluation

  /** A transfer between two accounts; `fee` is what the gas costs, `maxFee` the most the sender may be charged. */
  datatype Transfer = Transfer(from: Loc, to: Loc, value: nat, fee: nat, nonce: nat, maxFee: nat)

  /** What an explicit transfer writes after reading both accounts. A recipient that does not change is not written. */
  function Paid(t: Transfer, sender: Account, recipient: Account): Outcome {
    if sender.balance < t.maxFee || sender.nonce != t.nonce then NeedsEarlier
    else if t.from == t.to then
      Done(map[t.from := Basic(Account(SaturatingSub(sender.balance, t.fee), sender.nonce + 1))], 0)
    else if t.value == 0 then
      Done(map[t.from := Basic(Account(SaturatingSub(sender.balance, t.fee), sender.nonce + 1))], 0)
    else
      Done(map[t.from := Basic(Account(SaturatingSub(sender.balance, t.value + t.fee), sender.nonce + 1)),
               t.to := Basic(Account(recipient.balance + t.value, recipient.nonce))], 0)
  }

  function Explicit(t: Transfer): Transaction {
    Transaction(2, Fatal, (h: seq<Value>) =>
      if h == [] then Read(t.from)
      else if |h| == 1 then Read(t.to)
      else Finish(Paid(t, AccountOf(h[0]), AccountOf(h[1]))))
  }

  /** A lazy transfer reads no account and writes what changes. */
  function LazyWrites(t: Transfer): map<Loc, MemoryValue> {
    if t.from == t.to then map[t.from := LazySender(t.fee)]
    else map[t.from := LazySender(t.value + t.fee), t.to := LazyRecipient(t.value)]
  }

  function Lazy(t: Transfer): Transaction {
    Transaction(0, Fatal, (h: seq<Value>) => Finish(Done(LazyWrites(t), 0)))
  }

  lemma ExplicitRuns(t: Transfer, f: Loc -> Value)
    ensures RunFrom(Explicit(t), [], f) == Paid(t, AccountOf(f(t.from)), AccountOf(f(t.to)))
  {
    var x := Explicit(t);
    assert Next(x, []) == Read(t.from);
    assert [] + [f(t.from)] == [f(t.from)];
    assert Next(x, [f(t.from)]) == Read(t.to);
    assert [f(t.from)] + [f(t.to)] == [f(t.from), f(t.to)];
    assert Next(x, [f(t.from), f(t.to)]) == Finish(Paid(t, AccountOf(f(t.from)), AccountOf(f(t.to))));
  }

  lemma LazyRuns(t: Transfer, f: Loc -> Value)
    ensures RunFrom(Lazy(t), [], f) == Done(LazyWrites(t), 0)
  {
    assert Next(Lazy(t), []) == Finish(Done(LazyWrites(t), 0));
  }

  /** The value of a location after the writes of one transaction. */
  function After(ws: map<Loc, MemoryValue>, f: Loc -> Value, l: Loc): Value {
    if l in ws then Apply(ws[l], f(l)) else f(l)
  }

  /** What holds of the two accounts before the transfer: no fee above the bound, and no balance out of range. */
  ghost predicate Sensible(t: Transfer, f: Loc -> Value) {
    && t.value + t.fee <= t.maxFee
    && f(t.from).AccountValue? && f(t.to).AccountValue?
    && AccountOf(f(t.from)).balance <= U256_MAX && AccountOf(f(t.to)).balance + t.value <= U256_MAX
  }

  /** Nothing is sent to an account that does not exist. */
  predicate SendsNothing(t: Transfer, f: Loc -> Value) {
    t.value == 0 && t.from != t.to && f(t.to) == AccountValue(None)
  }

  /** When the explicit transfer succeeds, both leave the same values, if and only if it is not so that nothing is sent
      to an account that does not exist: then only the lazy one creates it, empty. */
  lemma SameValues(t: Transfer, f: Loc -> Value)
    requires Sensible(t, f) && RunFrom(Explicit(t), [], f).Done?
    ensures (forall l :: After(RunFrom(Explicit(t), [], f).writeSet, f, l) == After(LazyWrites(t), f, l)) <==>
      !SendsNothing(t, f)
    ensures SendsNothing(t, f) ==> After(LazyWrites(t), f, t.to) == AccountValue(Some(Account(0, 0)))
  {
    ExplicitRuns(t, f);
    var ws := RunFrom(Explicit(t), [], f).writeSet;
    assert After(ws, f, t.from) == After(LazyWrites(t), f, t.from);
    if SendsNothing(t, f) {
      assert After(ws, f, t.to) != After(LazyWrites(t), f, t.to);
    } else {
      assert After(ws, f, t.to) == After(LazyWrites(t), f, t.to);
    }
  }

  /** The explicit transfer succeeds if and only if the evaluation of the lazy one accepts its entry. */
  lemma SameSuccess(t: Transfer, f: Loc -> Value, m: Versions, k: nat, storage: Option<Account>, maxFee: seq<nat>,
                    signed: seq<Option<nat>>)
    requires k < |maxFee| == |signed| && maxFee[k] == t.maxFee && signed[k] == Some(t.nonce)
    requires k in m && m[k].Data? && m[k].value == LazyWrites(t)[t.from]
    requires f(t.from) == ValueBelow(m, k, AccountValue(storage))
    ensures RunFrom(Explicit(t), [], f).Done? <==> Checked(m, k, storage, maxFee, signed)
  {
    ExplicitRuns(t, f);
  }

  // ---------------------------------------------------------------- whole blocks

  ghost predicate MadeLazy(x: Transaction, x': Transaction, t: Transfer) {
    x == Explicit(t) && x' == Lazy(t)
  }

  /** `b'` is `b` with some of its explicit transfers made lazy. */
  ghost predicate SomeLazy(b: Block, b': Block, ts: seq<Option<Transfer>>) {
    && |b.txs| == |b'.txs| == |ts| && b'.storage == b.storage
    && forall i :: 0 <= i < |ts| ==>
         match ts[i]
         case None => b'.txs[i] == b.txs[i]
         case Some(t) => MadeLazy(b.txs[i], b'.txs[i], t)
  }

  /** Where a transfer was made lazy, the explicit one succeeds and sends something or to somebody. */
  ghost predicate ChoiceIsFree(b: Block, ts: seq<Option<Transfer>>, i: nat)
    requires i < |b.txs| == |ts|
  {
    ts[i].Some? ==>
      && Sensible(ts[i].value, SequentialState(b, i)) && SequentialOutcome(b, i).Done?
      && !SendsNothing(ts[i].value, SequentialState(b, i))
  }

  lemma StateStep(b: Block, i: nat, l: Loc)
    requires i < |b.txs|
    ensures SequentialState(b, i + 1)(l) ==
      if SequentialOutcome(b, i).Done? then After(SequentialOutcome(b, i).writeSet, SequentialState(b, i), l)
      else SequentialState(b, i)(l)
  {
  }

  /** Whichever transfers are lazy, the sequential execution has the same values at every point. */
  lemma {:induction false} ChoiceDoesNotMatter(b: Block, b': Block, ts: seq<Option<Transfer>>, i: nat)
    requires SomeLazy(b, b', ts) && i <= |b.txs| && forall j :: 0 <= j < i ==> ChoiceIsFree(b, ts, j)
    ensures forall l :: SequentialState(b', i)(l) == SequentialState(b, i)(l)
  {
    if i > 0 {
      ChoiceDoesNotMatter(b, b', ts, i - 1);
      forall l ensures SequentialState(b', i)(l) == SequentialState(b, i)(l) {
        ChoiceStep(b, b', ts, i - 1, l);
      }
    }
  }

  lemma ChoiceStep(b: Block, b': Block, ts: seq<Option<Transfer>>, i: nat, l: Loc)
    requires SomeLazy(b, b', ts) && i < |b.txs| && ChoiceIsFree(b, ts, i)
    requires forall k :: SequentialState(b', i)(k) == SequentialState(b, i)(k)
    ensures SequentialState(b', i + 1)(l) == SequentialState(b, i + 1)(l)
    ensures SequentialOutcome(b', i).Done? <==> SequentialOutcome(b, i).Done?
  {
    hide SequentialState;
    var f, f' := SequentialState(b, i), SequentialState(b', i);
    StateStep(b, i, l);
    StateStep(b', i, l);
    if ts[i].Some? {
      var t := ts[i].value;
      assert MadeLazy(b.txs[i], b'.txs[i], t);
      LazyRuns(t, f');
      SameValues(t, f);
      assert After(SequentialOutcome(b, i).writeSet, f, l) == After(LazyWrites(t), f, l);
    } else {
      RunAgrees(b.txs[i], [], f, f');
    }
  }
}
