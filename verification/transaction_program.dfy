/** Transactions as deterministic programs that issue reads, and their execution one by
    one, in block order, from storage: once with every write applied to the state, and
    once with every read answered by the walk of `VmDb` over the writes so far. */
module TransactionProgram {
  import opened MemoryModel

  datatype Outcome =
    | Done(writeSet: map<Loc, MemoryValue>, result: nat)
    | NeedsEarlier   // lack of funds or a nonce that is not reached yet
    | Fatal          // any other execution error

  datatype Action = Read(loc: Loc) | Finish(outcome: Outcome)

  /** `step` maps the values read so far to the next action; `gas` bounds the number of reads. */
  datatype Transaction = Transaction(gas: nat, halted: Outcome, step: seq<Value> -> Action)

  /** `estimates[i]` are the locations that the memory initially marks as written by transaction `i`. */
  datatype Block = Block(
    txs: seq<Transaction>,
    storage: Loc -> Value,
    isCode: Loc -> bool,
    estimates: seq<set<Loc>>)

  ghost function Next(t: Transaction, h: seq<Value>): Action {
    if |h| < t.gas || t.step(h).Finish? then t.step(h) else Finish(t.halted)
  }

  /** Run to the end with every read answered by `f`. */
  ghost function RunFrom(t: Transaction, h: seq<Value>, f: Loc -> Value): Outcome
    decreases t.gas - |h|
  {
    match Next(t, h)
    case Finish(o) => o
    case Read(l) => RunFrom(t, h + [f(l)], f)
  }

  /** `h` is a partial run of `t` in which every read was answered from `answers`. */
  ghost predicate Answered(t: Transaction, h: seq<Value>, answers: map<Loc, Value>) {
    forall k :: 0 <= k < |h| ==>
      var a := Next(t, h[..k]);
      a.Read? && a.loc in answers && h[k] == answers[a.loc]
  }

  lemma {:induction false} AnsweredRun(t: Transaction, h: seq<Value>, answers: map<Loc, Value>, f: Loc -> Value, k: nat)
    requires Answered(t, h, answers) && k <= |h|
    requires forall l :: l in answers ==> f(l) == answers[l]
    ensures RunFrom(t, h[..k], f) == RunFrom(t, h, f)
    decreases |h| - k
  {
    if k == |h| {
      assert h[..k] == h;
    } else {
      AnsweredRun(t, h, answers, f, k + 1);
      assert h[..k + 1] == h[..k] + [h[k]];
    }
  }

  /** The block state before transaction `i` when the transactions run one after another. */
  ghost function SequentialState(b: Block, i: nat): Loc -> Value
    requires i <= |b.txs|
  {
    if i == 0 then b.storage
    else
      var before := SequentialState(b, i - 1);
      match RunFrom(b.txs[i - 1], [], before)
      case Done(ws, _) => ((l: Loc) => if l in ws then Apply(ws[l], before(l)) else before(l))
      case _ => before
  }

  /** The outcome of transaction `i` in the sequential execution. */
  ghost function SequentialOutcome(b: Block, i: nat): Outcome
    requires i < |b.txs|
  {
    RunFrom(b.txs[i], [], SequentialState(b, i))
  }

  /** The entries a location has before transaction `i` in the sequential execution. */
  ghost function SequentialVersions(b: Block, i: nat, l: Loc): (m: Versions)
    requires i <= |b.txs|
    ensures forall k :: k in m ==> k < i && m[k].Data?
  {
    if i == 0 then map[] else AddedEntry(SequentialVersions(b, i - 1, l), i - 1, SequentialOutcome(b, i - 1), l)
  }

  function AddedEntry(m: Versions, i: nat, o: Outcome, l: Loc): Versions {
    if o.Done? && l in o.writeSet then m[i := Data(0, o.writeSet[l])] else m
  }

  /** The entries a location has before transaction `i` when the transactions run one after another and
      every read walks over them. */
  ghost function SerialVersions(b: Block, i: nat, l: Loc): (m: Versions)
    requires i <= |b.txs|
    ensures forall k :: k in m ==> k < i && m[k].Data?
    decreases i, 0
  {
    if i == 0 then map[] else AddedEntry(SerialVersions(b, i - 1, l), i - 1, SerialOutcome(b, i - 1), l)
  }

  /** The outcome of transaction `i` in that execution. */
  ghost function SerialOutcome(b: Block, i: nat): Outcome
    requires i < |b.txs|
    decreases i, 1
  {
    RunFrom(b.txs[i], [], (l: Loc) => WalkValue(SerialVersions(b, i, l), i, b.storage(l)))
  }

  /** The locations a run reads when every read is answered by `f`. */
  ghost function ReadsOf(t: Transaction, h: seq<Value>, f: Loc -> Value): set<Loc>
    decreases t.gas - |h|
  {
    match Next(t, h)
    case Finish(_) => {}
    case Read(l) => {l} + ReadsOf(t, h + [f(l)], f)
  }

  /** A run depends on the locations it reads and on nothing else. */
  lemma {:induction false} RunAgrees(t: Transaction, h: seq<Value>, f: Loc -> Value, g: Loc -> Value)
    requires forall l :: l in ReadsOf(t, h, f) ==> f(l) == g(l)
    ensures RunFrom(t, h, f) == RunFrom(t, h, g)
    decreases t.gas - |h|
  {
    match Next(t, h)
    case Finish(_) =>
    case Read(l) => RunAgrees(t, h + [f(l)], f, g);
  }

  /** Every location initially marked as an estimate is written whenever its transaction completes. */
  ghost predicate WritesEstimates(b: Block) {
    && |b.estimates| == |b.txs|
    && forall i: nat, f: Loc -> Value {:trigger RunFrom(b.txs[i], [], f)} ::
         i < |b.txs| && RunFrom(b.txs[i], [], f).Done? ==> b.estimates[i] <= RunFrom(b.txs[i], [], f).writeSet.Keys
  }
}
