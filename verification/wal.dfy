/** `wal.rs`: entries with a 16-byte header, never crossing a mapping, written one after the
    other and read back by an iterator that skips the padding between mappings. */
module Wal {
  import opened Collections

  type byte = x: int | 0 <= x < 256

  const MAP_SIZE: nat := 0x1000_0000
  const HEADER: nat := 16
  const TWO_32: nat := 0x1_0000_0000
  const TWO_64: nat := 0x1_0000_0000_0000_0000
  const TWO_128: nat := 0x1_0000_0000_0000_0000_0000_0000_0000_0000

  /** An entry as the writer took it, at the position the writer returned. */
  datatype Rec = Rec(position: nat, tag: nat, data: seq<byte>)

  // ---------------------------------------------------------------- little-endian numbers

  function ToLe(n: nat, k: nat): (b: seq<byte>)
    ensures |b| == k
    decreases k
  {
    if k == 0 then [] else [n % 256] + ToLe(n / 256, k - 1)
  }

  function FromLe(b: seq<byte>): nat {
    if b == [] then 0 else b[0] + 256 * FromLe(b[1..])
  }

  function Pow256(k: nat): nat {
    if k == 0 then 1 else 256 * Pow256(k - 1)
  }

  lemma {:induction false} LeRoundTrip(n: nat, k: nat)
    requires n < Pow256(k)
    ensures FromLe(ToLe(n, k)) == n
    decreases k
  {
    if k != 0 {
      LeRoundTrip(n / 256, k - 1);
      assert ToLe(n, k)[1..] == ToLe(n / 256, k - 1);
    }
  }

  lemma {:induction false} LeZeros(b: seq<byte>)
    requires forall x :: 0 <= x < |b| ==> b[x] == 0
    ensures FromLe(b) == 0
  {
    if b != [] {
      LeZeros(b[1..]);
    }
  }

  lemma Pow256Sixteen()
    ensures Pow256(16) == TWO_128
  {
    assert Pow256(4) == TWO_32;
    assert Pow256(8) == TWO_64;
    assert Pow256(12) == TWO_64 * TWO_32;
  }

  // ---------------------------------------------------------------- headers

  function CombineHeader(crc: nat, len: nat, tag: nat): nat {
    crc + len * TWO_64 + tag * (TWO_64 * TWO_32)
  }

  function SplitHeader(h: nat): (nat, nat, nat) {
    (h % TWO_64, h / TWO_64 % TWO_32, h / (TWO_64 * TWO_32))
  }

  /** Checksum, length and tag survive the packing into one header. */
  lemma HeaderRoundTrip(crc: nat, len: nat, tag: nat)
    requires crc < TWO_64 && len < TWO_32 && tag < TWO_32
    ensures CombineHeader(crc, len, tag) < TWO_128
    ensures SplitHeader(CombineHeader(crc, len, tag)) == (crc, len, tag)
  {
    var h := CombineHeader(crc, len, tag);
    assert h == crc + (len + tag * TWO_32) * TWO_64;
    assert h / TWO_64 == len + tag * TWO_32;
    assert h / (TWO_64 * TWO_32) == tag;
  }

  function HeaderBytes(crc: nat, len: nat, tag: nat): seq<byte> {
    ToLe(CombineHeader(crc, len, tag), HEADER)
  }

  lemma HeaderBytesRoundTrip(crc: nat, len: nat, tag: nat)
    requires crc < TWO_64 && len < TWO_32 && tag < TWO_32
    ensures SplitHeader(FromLe(HeaderBytes(crc, len, tag))) == (crc, len, tag)
  {
    HeaderRoundTrip(crc, len, tag);
    Pow256Sixteen();
    LeRoundTrip(CombineHeader(crc, len, tag), HEADER);
  }

  /** A number behind `k` bytes of another one. */
  lemma {:induction false} LeBehind(a: nat, b: nat, k: nat, j: nat)
    requires a < Pow256(k)
    ensures ToLe(a + b * Pow256(k), k + j) == ToLe(a, k) + ToLe(b, j)
    decreases k
  {
    if k != 0 {
      var n := a + b * Pow256(k);
      ShiftedByte(a, b, Pow256(k - 1));
      assert n % 256 == a % 256 && n / 256 == a / 256 + b * Pow256(k - 1);
      LeBehind(a / 256, b, k - 1, j);
    }
  }

  lemma ShiftedByte(a: nat, b: nat, p: nat)
    ensures (a + b * (256 * p)) % 256 == a % 256 && (a + b * (256 * p)) / 256 == a / 256 + b * p
  {
    var q := b * p;
    assert b * (256 * p) == 256 * q;
  }

  /** The bytes of a header: eight of the checksum, four of the length and four of the tag. */
  lemma HeaderLayout(crc: nat, len: nat, tag: nat)
    requires crc < TWO_64 && len < TWO_32 && tag < TWO_32
    ensures HeaderBytes(crc, len, tag) == ToLe(crc, 8) + (ToLe(len, 4) + ToLe(tag, 4))
  {
    hide ToLe, Pow256;
    Powers();
    var rest := len + tag * TWO_32;
    Combined(crc, len, tag);
    LeBehind(len, tag, 4, 4);
    LeBehind(crc, rest, 8, 8);
  }

  lemma Powers()
    ensures Pow256(4) == TWO_32 && Pow256(8) == TWO_64
  {
    assert Pow256(2) == 65536 && Pow256(3) == 256 * 65536;
    assert Pow256(6) == 65536 * TWO_32;
  }

  lemma Combined(crc: nat, len: nat, tag: nat)
    ensures CombineHeader(crc, len, tag) == crc + (len + tag * TWO_32) * TWO_64
  {
  }

  // ---------------------------------------------------------------- positions

  /** The start of the mapping of a position. */
  function Offset(p: nat): (o: nat)
    ensures o <= p < o + MAP_SIZE
  {
    p - p % MAP_SIZE
  }

  /** Where the writer at `p` puts an entry of `len` bytes: here, or at the start of the mapping it would run into. */
  function Place(p: nat, len: nat): nat
    requires 0 < len
  {
    if Offset(p) == Offset(p + len - 1) then p else Offset(p + len - 1)
  }

  /** A moved entry starts exactly at the next mapping, and fits into it. */
  lemma PlaceFits(p: nat, len: nat)
    requires 0 < len <= MAP_SIZE
    ensures p <= Place(p, len) && Offset(Place(p, len)) == Offset(Place(p, len) + len - 1)
    ensures Place(p, len) + len <= Offset(Place(p, len)) + MAP_SIZE
    ensures Place(p, len) != p ==> Place(p, len) == Offset(p) + MAP_SIZE && p != Offset(p)
  {
  }

  // ---------------------------------------------------------------- the file

  function LenOf(r: Rec): nat {
    |r.data| + HEADER
  }

  function EndOf(r: Rec): nat {
    r.position + LenOf(r)
  }

  ghost predicate RecOk(r: Rec) {
    LenOf(r) <= MAP_SIZE && r.tag < TWO_32
  }

  /** The bytes of an entry are in the file. */
  ghost predicate Stored(file: seq<byte>, r: Rec, crc: seq<byte> -> nat) {
    && EndOf(r) <= |file|
    && file[r.position..r.position + HEADER] == HeaderBytes(crc(r.data), LenOf(r), r.tag)
    && file[r.position + HEADER..EndOf(r)] == r.data
  }

  ghost predicate Zero(file: seq<byte>, lo: nat, hi: nat) {
    hi <= |file| && forall x :: lo <= x < hi ==> file[x] == 0
  }

  /** Position after the first `n` entries. */
  function EndAfter(recs: seq<Rec>, n: nat): nat
    requires n <= |recs|
  {
    if n == 0 then 0 else EndOf(recs[n - 1])
  }

  /** Entry `n` is stored where the writer placed it, with zeros in front. */
  ghost predicate Placed(file: seq<byte>, recs: seq<Rec>, n: nat, crc: seq<byte> -> nat)
    requires n < |recs|
  {
    var r, p := recs[n], EndAfter(recs, n);
    RecOk(r) && r.position == Place(p, LenOf(r)) && Stored(file, r, crc) && Zero(file, p, r.position)
  }

  /** The file holds exactly these entries. */
  ghost predicate Holds(file: seq<byte>, recs: seq<Rec>, crc: seq<byte> -> nat) {
    && |file| == EndAfter(recs, |recs|)
    && forall n :: 0 <= n < |recs| ==> Placed(file, recs, n, crc)
  }

  /** The padding in front of entry `n`, if there is any, is long enough for a header. */
  ghost predicate Roomy(recs: seq<Rec>, n: nat)
    requires n < |recs|
  {
    recs[n].position == EndAfter(recs, n) || recs[n].position >= EndAfter(recs, n) + HEADER
  }

  /** No padding is too short to hold a header. */
  ghost predicate RoomyGaps(recs: seq<Rec>) {
    forall n :: 0 <= n < |recs| ==> Roomy(recs, n)
  }

  ghost predicate Crc32(crc: seq<byte> -> nat) {
    forall b :: crc(b) < TWO_32
  }

  function Zeros(n: nat): (z: seq<byte>)
    ensures |z| == n && forall x :: 0 <= x < n ==> z[x] == 0
  {
    seq(n, _ => 0)
  }

  function Concat(v: seq<seq<byte>>): seq<byte> {
    if v == [] then [] else Concat(v[..|v| - 1]) + v[|v| - 1]
  }

  lemma Appends(file: seq<byte>, recs: seq<Rec>, r: Rec, file': seq<byte>, crc: seq<byte> -> nat)
    requires Holds(file, recs, crc) && RecOk(r) && r.position == Place(|file|, LenOf(r)) && |file| <= r.position
    requires file' == file + Zeros(r.position - |file|) + HeaderBytes(crc(r.data), LenOf(r), r.tag) + r.data
    ensures Holds(file', recs + [r], crc)
  {
    hide Place, HeaderBytes;
    NewlyStored(file, r, file', crc);
    var recs' := recs + [r];
    assert file'[..|file|] == file;
    forall n | 0 <= n < |recs'| ensures Placed(file', recs', n, crc) {
      assert EndAfter(recs', n) == EndAfter(recs, n);
      if n < |recs| {
        assert recs'[n] == recs[n] && Placed(file, recs, n, crc);
        StaysStored(file, file', recs[n], EndAfter(recs, n), crc);
      }
    }
  }

  lemma NewlyStored(file: seq<byte>, r: Rec, file': seq<byte>, crc: seq<byte> -> nat)
    requires |file| <= r.position
    requires file' == file + Zeros(r.position - |file|) + HeaderBytes(crc(r.data), LenOf(r), r.tag) + r.data
    ensures |file'| == EndOf(r) && Stored(file', r, crc) && Zero(file', |file|, r.position)
  {
    var header := HeaderBytes(crc(r.data), LenOf(r), r.tag);
    hide HeaderBytes;
    HeaderSize(crc(r.data), LenOf(r), r.tag);
    assert file'[r.position..r.position + HEADER] == header;
    assert file'[r.position + HEADER..EndOf(r)] == r.data;
  }

  lemma HeaderSize(crc: nat, len: nat, tag: nat)
    ensures |HeaderBytes(crc, len, tag)| == HEADER
  {
  }

  lemma StaysStored(file: seq<byte>, file': seq<byte>, r: Rec, p: nat, crc: seq<byte> -> nat)
    requires Stored(file, r, crc) && Zero(file, p, r.position) && |file| <= |file'| && file'[..|file|] == file
    ensures Stored(file', r, crc) && Zero(file', p, r.position)
  {
    hide HeaderBytes;
    SameSlice(file, file', r.position, r.position + HEADER);
    SameSlice(file, file', r.position + HEADER, EndOf(r));
    assert forall x :: 0 <= x < |file| ==> file'[x] == file'[..|file|][x];
  }

  lemma SameSlice(file: seq<byte>, file': seq<byte>, lo: nat, hi: nat)
    requires |file| <= |file'| && file'[..|file|] == file && lo <= hi <= |file|
    ensures file'[lo..hi] == file[lo..hi]
  {
    forall x | 0 <= x < hi - lo ensures file'[lo..hi][x] == file[lo..hi][x] {
      assert file'[..|file|][lo + x] == file[lo + x];
    }
  }

  /** Inside the first mapping nothing is moved. */
  /** An entry goes where the log ends if and only if it fits into the mapping there. */
  lemma PlaceHere(p: nat, len: nat)
    requires 0 < len <= MAP_SIZE
    ensures Place(p, len) == p <==> p + len <= Offset(p) + MAP_SIZE
  {
  }

  /** A log that fits into one mapping has no padding. */
  lemma OneMapping(file: seq<byte>, recs: seq<Rec>, crc: seq<byte> -> nat)
    requires Holds(file, recs, crc) && |file| <= MAP_SIZE
    ensures RoomyGaps(recs)
  {
    forall n | 0 <= n < |recs| ensures Roomy(recs, n) {
      var r, p := recs[n], EndAfter(recs, n);
      assert Placed(file, recs, n, crc);
      PlaceFits(p, LenOf(r));
      PlaceHere(p, LenOf(r));
    }
  }

  class WalWriter {
    var file: seq<byte>
    var pos: nat
    ghost var recs: seq<Rec>
    ghost const crc: seq<byte> -> nat

    ghost predicate Valid()
      reads this
    {
      pos == |file| && Holds(file, recs, crc)
    }

    constructor (ghost checksum: seq<byte> -> nat)
      ensures Valid() && recs == [] && pos == 0 && crc == checksum
    {
      file, pos, recs, crc := [], 0, [], checksum;
    }

    /** The writer of a file that holds entries already. */
    constructor Reopen(bytes: seq<byte>, ghost written: seq<Rec>, ghost checksum: seq<byte> -> nat)
      requires Holds(bytes, written, checksum)
      ensures Valid() && file == bytes && recs == written && crc == checksum
    {
      file, pos, recs, crc := bytes, |bytes|, written, checksum;
    }

    /** Write an entry, padding with zeros up to the next mapping when it would cross into it. `checksum` is that of
        the data. */
    method Writev(tag: nat, v: seq<seq<byte>>, checksum: nat) returns (position: nat)
      requires Valid() && tag < TWO_32 && |Concat(v)| + HEADER <= MAP_SIZE && checksum == crc(Concat(v))
      modifies this
      ensures Valid() && recs == old(recs) + [Rec(position, tag, Concat(v))]
      ensures position == Place(old(pos), |Concat(v)| + HEADER) && pos == position + |Concat(v)| + HEADER
    {
      hide Holds, HeaderBytes, Concat, Offset, Place;
      var data := Concat(v);
      var len := |data| + HEADER;
      ghost var before := file;
      PlaceFits(pos, len);
      PlaceIs(pos, len);
      var buffer: seq<byte> := [];
      if Offset(pos) != Offset(pos + len - 1) {
        var extra := Offset(pos + len - 1) - pos;
        buffer := Zeros(extra);
        pos := pos + extra;
      }
      assert buffer == Zeros(pos - |before|);
      position := pos;
      ghost var r := Rec(position, tag, data);
      Appends(before, recs, r, before + Zeros(position - |before|) + HeaderBytes(checksum, len, tag) + data, crc);
      HeaderSize(checksum, len, tag);
      file := file + buffer + HeaderBytes(checksum, len, tag) + data;
      pos := pos + len;
      recs := recs + [r];
    }
  }

  lemma PlaceIs(p: nat, len: nat)
    requires 0 < len
    ensures Place(p, len) == if Offset(p) == Offset(p + len - 1) then p else Offset(p + len - 1)
  {
  }

  // ---------------------------------------------------------------- reading

  datatype ReadResult = Entry(tag: nat, data: seq<byte>) | Padding | OutOfMap

  /** The header at a position as `read_header` splits it. */
  function HeaderAt(file: seq<byte>, p: nat): (nat, nat, nat)
    requires p + HEADER <= |file|
  {
    SplitHeader(FromLe(file[p..p + HEADER]))
  }

  lemma StoredHeader(file: seq<byte>, r: Rec, crc: seq<byte> -> nat)
    requires RecOk(r) && Stored(file, r, crc) && Crc32(crc)
    ensures HeaderAt(file, r.position) == (crc(r.data), LenOf(r), r.tag)
  {
    HeaderBytesRoundTrip(crc(r.data), LenOf(r), r.tag);
  }

  lemma PaddingHeader(file: seq<byte>, p: nat)
    requires Zero(file, p, p + HEADER)
    ensures HeaderAt(file, p) == (0, 0, 0)
  {
    LeZeros(file[p..p + HEADER]);
  }

  /** `try_read` does not panic: the header lies inside the mapping, padding has no checksum, and an entry has its
      own. */
  ghost predicate Readable(file: seq<byte>, p: nat, crc: seq<byte> -> nat) {
    && p + HEADER <= |file| && p + HEADER <= Offset(p) + MAP_SIZE
    && var (sum, len, _) := HeaderAt(file, p);
       if len == 0 then sum == 0 else HEADER <= len && p + len <= |file| && sum == crc(file[p + HEADER..p + len])
  }

  /** The header at `p` would run out of the mapping, where `read_header` panics. */
  predicate HeaderOutOfMap(p: nat) {
    p + HEADER > Offset(p) + MAP_SIZE
  }

  /** `try_read`: an entry, the zero header of padding, or a panic. */
  method TryRead(file: seq<byte>, p: nat, ghost crc: seq<byte> -> nat) returns (r: ReadResult)
    requires HeaderOutOfMap(p) || Readable(file, p, crc)
    ensures r == OutOfMap <==> HeaderOutOfMap(p)
    ensures !HeaderOutOfMap(p) ==>
      var (_, len, tag) := HeaderAt(file, p);
      if len == 0 then r == Padding else r == Entry(tag, file[p + HEADER..p + len])
  {
    if p + HEADER > Offset(p) + MAP_SIZE {
      return OutOfMap;
    }
    var (_, len, tag) := HeaderAt(file, p);
    if len == 0 {
      return Padding;
    }
    return Entry(tag, file[p + HEADER..p + len]);
  }

  datatype NextItem = Found(rec: Rec) | End | Panic

  class WalIterator {
    const file: seq<byte>
    var position: Option<nat>

    /** The iterator stands behind the first `n` entries. */
    ghost predicate Behind(recs: seq<Rec>, n: nat, crc: seq<byte> -> nat)
      reads this
    {
      && Holds(file, recs, crc) && Crc32(crc) && n <= |recs|
      && position == Some(EndAfter(recs, n))
    }

    constructor (f: seq<byte>)
      ensures file == f && position == Some(0)
    {
      file, position := f, Some(0);
    }

    /** The next entry: at the current position, or at the start of the next mapping. */
    method Next(ghost recs: seq<Rec>, ghost n: nat, ghost crc: seq<byte> -> nat) returns (item: NextItem)
      requires Behind(recs, n, crc)
      modifies this
      ensures n < |recs| && Roomy(recs, n) ==> item == Found(recs[n]) && Behind(recs, n + 1, crc)
      ensures n < |recs| && !Roomy(recs, n) ==> item == Panic
      ensures n == |recs| ==> item == End && position == None
    {
      hide Holds, Crc32, HeaderAt, Offset, Roomy;
      var p := position.value;
      position := None;
      NextEntry(file, recs, n, crc);
      if p < |file| {
        var read := TryRead(file, p, crc);
        if read.OutOfMap? {
          return Panic;
        }
        if read.Entry? {
          position := Some(p + |read.data| + HEADER);
          return Found(Rec(p, read.tag, read.data));
        }
      }
      if p == Offset(p) {
        return End;
      }
      var q := Offset(p) + MAP_SIZE;
      if q < |file| {
        var read := TryRead(file, q, crc);
        if read.OutOfMap? {
          return Panic;
        }
        if read.Entry? {
          position := Some(q + |read.data| + HEADER);
          return Found(Rec(q, read.tag, read.data));
        }
      }
      return End;
    }
  }

  /** What lies at the position behind `n` entries: the next entry, or padding with the next entry at the next
      mapping, or the end. */
  lemma NextEntry(file: seq<byte>, recs: seq<Rec>, n: nat, crc: seq<byte> -> nat)
    requires Holds(file, recs, crc) && Crc32(crc) && n <= |recs|
    ensures var p := EndAfter(recs, n);
      if n == |recs| then |file| == p && |file| <= Offset(p) + MAP_SIZE
      else if !Roomy(recs, n) then p < |file| && HeaderOutOfMap(p)
      else
        var r := recs[n];
        && EndOf(r) <= |file| && HeaderAt(file, r.position) == (crc(r.data), LenOf(r), r.tag)
           && EndOf(r) <= Offset(r.position) + MAP_SIZE
        && file[r.position + HEADER..EndOf(r)] == r.data && !HeaderOutOfMap(r.position) && !HeaderOutOfMap(p)
        && (r.position == p
            || (r.position == Offset(p) + MAP_SIZE && p != Offset(p) && p + HEADER <= r.position
               && HeaderAt(file, p) == (0, 0, 0)))
  {
    if n < |recs| {
      var r, p := recs[n], EndAfter(recs, n);
      assert Placed(file, recs, n, crc);
      StoredHeader(file, r, crc);
      PlaceFits(p, LenOf(r));
      EndsInside(file, recs, n, crc);
      if r.position >= p + HEADER {
        PaddingHeader(file, p);
      }
    }
  }

  lemma EndsInside(file: seq<byte>, recs: seq<Rec>, n: nat, crc: seq<byte> -> nat)
    requires Holds(file, recs, crc) && n < |recs|
    ensures EndOf(recs[n]) <= |file|
  {
    assert Placed(file, recs, n, crc);
  }

  /** Iterating over a log yields precisely the written positions, tags and bytes, in order, and it panics if and only
      if some padding is too short for a header: there, after everything in front of it. */
  method ReadAll(file: seq<byte>, ghost recs: seq<Rec>, ghost crc: seq<byte> -> nat)
      returns (items: seq<Rec>, panicked: bool)
    requires Holds(file, recs, crc) && Crc32(crc)
    ensures panicked <==> !RoomyGaps(recs)
    ensures |items| <= |recs| && items == recs[..|items|]
    ensures if panicked then |items| < |recs| && !Roomy(recs, |items|) else |items| == |recs|
  {
    hide Holds, Crc32, Roomy;
    var it := new WalIterator(file);
    items := [];
    assert it.Behind(recs, 0, crc);
    while true
      invariant fresh(it) && it.file == file && |items| <= |recs| && items == recs[..|items|]
      invariant it.Behind(recs, |items|, crc) && forall n :: 0 <= n < |items| ==> Roomy(recs, n)
      decreases |recs| - |items|
    {
      var item := it.Next(recs, |items|, crc);
      match item {
        case Panic =>
          return items, true;
        case End =>
          return items, false;
        case Found(rec) =>
          items := items + [rec];
      }
    }
  }

  /** The iterator can look at the padding in front of an entry exactly when it is long enough for a header. */
  lemma PaddingIsReadable(file: seq<byte>, recs: seq<Rec>, n: nat, crc: seq<byte> -> nat)
    requires Holds(file, recs, crc) && n < |recs| && recs[n].position != EndAfter(recs, n)
    ensures Readable(file, EndAfter(recs, n), crc) <==> Roomy(recs, n)
  {
    var r, p := recs[n], EndAfter(recs, n);
    assert Placed(file, recs, n, crc);
    PlaceFits(p, LenOf(r));
    if r.position >= p + HEADER {
      PaddingHeader(file, p);
    }
  }

  /** A log of two entries on which the iterator panics: the first one ends 8 bytes before a mapping. */
  method NarrowLog(crc: seq<byte> -> nat) returns (writer: WalWriter, items: seq<Rec>, panicked: bool)
    requires Crc32(crc)
    ensures fresh(writer) && writer.Valid() && writer.crc == crc && |writer.recs| == 2 && !RoomyGaps(writer.recs)
    ensures panicked && items == writer.recs[..1]
  {
    hide Holds, Crc32, HeaderBytes;
    writer := new WalWriter(crc);
    var data := Zeros(MAP_SIZE - HEADER - 8);
    OneSlice(data);
    OneSlice([]);
    var first := writer.Writev(1, [data], crc(data));
    var second := writer.Writev(1, [[]], crc([]));
    NarrowPlaces();
    ghost var recs := writer.recs;
    assert recs == [Rec(0, 1, data), Rec(MAP_SIZE, 1, [])];
    assert EndAfter(recs, 1) == MAP_SIZE - 8 && !Roomy(recs, 1) && Roomy(recs, 0);
    items, panicked := ReadAll(writer.file, writer.recs, crc);
  }

  lemma NarrowPlaces()
    ensures Place(0, MAP_SIZE - 8) == 0 && Place(MAP_SIZE - 8, HEADER) == MAP_SIZE
  {
  }

  lemma OneSlice(data: seq<byte>)
    ensures Concat([data]) == data
  {
    assert [data][..0] == [];
  }
}
