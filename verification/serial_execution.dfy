/** Two ways to run a block one transaction after another: with the reads of `VmDb`, which
    walk the writes so far backwards, and with every write applied to the state. */
module SerialExecution {
  import opened Collections
  import opened MemoryModel
  import opened BalanceWalk
  import opened TransactionProgram

  /** Two histories of a location with the same values; incarnations do not matter. */
  ghost predicate SameValues(m: Versions, m': Versions, i: nat) {
    forall k: nat :: k < i ==>
      (k in m <==> k in m') && (k in m ==> m[k].Data? && m'[k].Data? && m[k].value == m'[k].value)
  }

  lemma SameWalk(m: Versions, m': Versions, i: nat, base: Value)
    requires SameValues(m, m', i)
    ensures WalkValue(m, i, base) == WalkValue(m', i, base) && ValueBelow(m, i, base) == ValueBelow(m', i, base)
  {
    WalkIgnoresIncarnations(m, m', i, base, NO_UPDATES);
  }

  lemma FoldStep(m: Versions, i: nat, o: Outcome, l: Loc, base: Value)
    requires forall k :: k in m ==> k < i && m[k].Data?
    ensures ValueBelow(AddedEntry(m, i, o, l), i + 1, base) ==
      if o.Done? && l in o.writeSet then Apply(o.writeSet[l], ValueBelow(m, i, base)) else ValueBelow(m, i, base)
  {
    SameWalk(m, AddedEntry(m, i, o, l), i, base);
  }

  /** Applying the writes of the sequential execution one by one gives the sequential state. */
  lemma {:induction false} SequentialIsFold(b: Block, i: nat, l: Loc)
    requires i <= |b.txs|
    ensures ValueBelow(SequentialVersions(b, i, l), i, b.storage(l)) == SequentialState(b, i)(l)
  {
    hide AddedEntry, Apply, RunFrom;
    if i > 0 {
      SequentialIsFold(b, i - 1, l);
      FoldStep(SequentialVersions(b, i - 1, l), i - 1, SequentialOutcome(b, i - 1), l, b.storage(l));
    }
  }

  /** In the sequential execution, the balances behind everything transaction `i` reads stay in the U256
      range, and none of the accounts it reads is forgotten by the walk. */
  ghost predicate ReadsExactly(b: Block, i: nat)
    requires i < |b.txs|
  {
    forall l :: l in ReadsOf(b.txs[i], [], SequentialState(b, i)) ==> ReadExactly(b, i, l)
  }

  ghost predicate ReadExactly(b: Block, i: nat, l: Loc)
    requires i <= |b.txs|
  {
    InRange(SequentialVersions(b, i, l), i, b.storage(l)) && !Forgotten(SequentialVersions(b, i, l), i, b.storage(l))
  }

  /** A transaction that reads exactly has its sequential outcome when its reads walk over the sequential history. */
  lemma ExactOutcome(b: Block, i: nat)
    requires i < |b.txs| && ReadsExactly(b, i)
    requires forall l :: SerialVersions(b, i, l) == SequentialVersions(b, i, l)
    ensures SerialOutcome(b, i) == SequentialOutcome(b, i)
  {
    var f, g := SequentialState(b, i), (l: Loc) => WalkValue(SerialVersions(b, i, l), i, b.storage(l));
    forall l | l in ReadsOf(b.txs[i], [], f) ensures f(l) == g(l) {
      assert ReadExactly(b, i, l);
      SequentialIsFold(b, i, l);
      WalkIsFold(SequentialVersions(b, i, l), i, b.storage(l));
    }
    RunAgrees(b.txs[i], [], f, g);
  }

  /** As long as every transaction reads exactly, walking over the writes and applying them is the same. */
  lemma {:induction false} SerialIsSequential(b: Block, i: nat)
    requires i <= |b.txs| && forall j :: 0 <= j < i ==> ReadsExactly(b, j)
    ensures forall l :: SerialVersions(b, i, l) == SequentialVersions(b, i, l)
    ensures forall j :: 0 <= j < i ==> SerialOutcome(b, j) == SequentialOutcome(b, j)
  {
    if i > 0 {
      SerialIsSequential(b, i - 1);
      ExactOutcome(b, i - 1);
    }
  }

  // ---------------------------------------------------------------- where the two differ

  /** Read one location and report whether an account was found there. */
  function Probe(l: Loc): Transaction {
    Transaction(1, Fatal, (h: seq<Value>) => if h == [] then Read(l)
      else Finish(Done(map[], if h[0] == AccountValue(None) then 0 else 1)))
  }

  lemma ProbeReports(l: Loc, f: Loc -> Value)
    ensures RunFrom(Probe(l), [], f) == Done(map[], if f(l) == AccountValue(None) then 0 else 1)
  {
    var t := Probe(l);
    assert Next(t, []) == Read(l);
    assert [] + [f(l)] == [f(l)];
    assert Next(t, [f(l)]) == Finish(Done(map[], if f(l) == AccountValue(None) then 0 else 1));
  }

  /** A transaction that asks for an account after exact reads has its sequential outcome if and only if
      the account is not forgotten. */
  lemma ProbeTellsForgotten(b: Block, i: nat, l: Loc)
    requires i < |b.txs| && b.txs[i] == Probe(l) && forall j :: 0 <= j < i ==> ReadsExactly(b, j)
    requires InRange(SequentialVersions(b, i, l), i, b.storage(l))
    ensures SerialOutcome(b, i) == SequentialOutcome(b, i) <==> !Forgotten(SequentialVersions(b, i, l), i, b.storage(l))
  {
    SerialIsSequential(b, i);
    SequentialIsFold(b, i, l);
    WalkIsFold(SequentialVersions(b, i, l), i, b.storage(l));
    ProbeReports(l, SequentialState(b, i));
    ProbeReports(l, (l: Loc) => WalkValue(SerialVersions(b, i, l), i, b.storage(l)));
  }

  /** Write one location and read nothing. */
  function Writer(l: Loc, w: MemoryValue): Transaction {
    Transaction(0, Fatal, (h: seq<Value>) => Finish(Done(map[l := w], 0)))
  }

  /** A new account receives 5 and sends 5; then it is asked for. */
  function SpentBlock(): Block {
    Block([Writer(0, LazyRecipient(5)), Writer(0, LazySender(5)), Probe(0)], l => AccountValue(None), l => false,
      [{}, {}, {}])
  }

  lemma SpentHistory()
    ensures forall j :: 0 <= j < 2 ==> ReadsExactly(SpentBlock(), j)
    ensures SequentialVersions(SpentBlock(), 2, 0) == map[0 := Data(0, LazyRecipient(5)), 1 := Data(0, LazySender(5))]
  {
    var b := SpentBlock();
    forall j | 0 <= j < 2 ensures ReadsExactly(b, j) {
      assert Next(b.txs[j], []).Finish?;
    }
    assert Next(b.txs[0], []) == Finish(Done(map[0 := LazyRecipient(5)], 0));
    assert Next(b.txs[1], []) == Finish(Done(map[0 := LazySender(5)], 0));
    assert SequentialVersions(b, 1, 0) == map[0 := Data(0, LazyRecipient(5))];
  }

  /** The account that received 5 and sent 5: the fold keeps its nonce, the walk finds no account. */
  lemma SpentWalk(m: Versions)
    requires m == map[0 := Data(0, LazyRecipient(5)), 1 := Data(0, LazySender(5))]
    ensures ValueBelow(m, 2, AccountValue(None)) == AccountValue(Some(Account(0, 1)))
    ensures WalkValue(m, 2, AccountValue(None)) == AccountValue(None)
  {
    assert ValueBelow(m, 1, AccountValue(None)) == AccountValue(Some(Account(5, 0)));
    var sum := Accumulate(NO_UPDATES, LazySender(5));
    assert WalkFrom(m, 1, AccountValue(None), sum) ==
      WalkFrom(m, 0, AccountValue(None), Accumulate(sum, LazyRecipient(5)));
  }

  /** On that block the two executions part: the account is there with nonce 1, and the walk finds none. */
  lemma SpentAccountIsMissed()
    ensures SequentialState(SpentBlock(), 2)(0) == AccountValue(Some(Account(0, 1)))
    ensures SequentialOutcome(SpentBlock(), 2) == Done(map[], 1)
    ensures SerialOutcome(SpentBlock(), 2) == Done(map[], 0)
  {
    hide ValueBelow, WalkFrom, SequentialVersions, SequentialState, SerialVersions, ReadsExactly, RunFrom;
    var b := SpentBlock();
    SpentHistory();
    SpentWalk(SequentialVersions(b, 2, 0));
    SequentialIsFold(b, 2, 0);
    SerialIsSequential(b, 2);
    ProbeReports(0, SequentialState(b, 2));
    ProbeReports(0, (l: Loc) => WalkValue(SerialVersions(b, 2, l), 2, b.storage(l)));
  }

  lemma SpentEstimates()
    ensures WritesEstimates(SpentBlock()) && |SpentBlock().txs| == 3
  {
  }
}
