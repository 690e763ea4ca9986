/**
 * The layout of a segment file: a 64-byte header, records one after another, a 32-byte footer.
 * A record is a 20-byte envelope and its payload. Nothing in the file says where the records end.
 */
module Format {
  import opened Bytes
  import opened Routines
  import Seqs

  const HEADER_SIZE: nat := 64
  const ENVELOPE_SIZE: nat := 20
  const FOOTER_SIZE: nat := 32

  const MAGIC: bytes := [0x89, 0x52, 0x45, 0x43, 0x0D, 0x0A, 0x1A, 0x0A]

  const OP_SESSION_START: byte := 1
  const OP_CHANNEL_DEF: byte := 2
  const OP_DATA: byte := 3
  const OP_CHUNK: byte := 4
  const OP_INDEX: byte := 5
  const OP_ANNOTATION: byte := 6
  const OP_SESSION_END: byte := 7

  const FLAG_COMPRESSED: byte := 1
  const FLAG_CRC: byte := 2

  const INVALID_CHANNEL: u16 := 0xFFFF

  datatype Rec = Rec(op: byte, ch: u16, flags: byte, ts: u64, crc: u32, payload: bytes)

  /** The payload length fits its 32-bit field. */
  predicate Framed(r: Rec) { |r.payload| < 0x1_0000_0000 }

  /** Envelope bytes 0 to 15: everything but the checksum. */
  function Head(r: Rec): (s: bytes)
    ensures |s| == 16
  {
    [r.op] + LE(r.ch, 2) + [r.flags] + LE(|r.payload|, 4) + LE(r.ts, 8)
  }

  function Encode(r: Rec): (s: bytes)
    ensures |s| == ENVELOPE_SIZE + |r.payload|
  {
    Head(r) + LE(r.crc, 4) + r.payload
  }

  function EncodeAll(rs: seq<Rec>): bytes {
    if rs == [] then [] else Encode(rs[0]) + EncodeAll(rs[1..])
  }

  predicate Flagged(r: Rec) { r.flags / 2 % 2 == 1 }

  /** The test every reader applies before it believes a record. */
  predicate Intact(lib: Library, r: Rec) { Flagged(r) ==> r.crc == lib.crc32(Head(r) + r.payload) }

  ghost predicate AllFramed(rs: seq<Rec>) { forall r :: r in rs ==> Framed(r) }

  ghost predicate AllIntact(lib: Library, rs: seq<Rec>) { forall r :: r in rs ==> Intact(lib, r) }

  // ----- the walk -----

  function PayloadLength(s: bytes): u32
    requires |s| >= ENVELOPE_SIZE
  {
    U32(s[4..8])
  }

  /** No complete record starts here. */
  predicate Stuck(s: bytes) {
    |s| < ENVELOPE_SIZE || |s| < ENVELOPE_SIZE + PayloadLength(s)
  }

  function Extent(s: bytes): (n: nat)
    requires !Stuck(s)
    ensures ENVELOPE_SIZE <= n <= |s|
  {
    ENVELOPE_SIZE + PayloadLength(s)
  }

  function Decode(s: bytes): (r: Rec)
    requires !Stuck(s)
    ensures Framed(r)
  {
    Rec(s[0], U16(s[1..3]), s[3], U64(s[8..16]), U32(s[16..20]), s[20..Extent(s)])
  }

  function Records(s: bytes): seq<Rec>
    decreases |s|
  {
    if Stuck(s) then [] else [Decode(s)] + Records(s[Extent(s)..])
  }

  function Tail(s: bytes): bytes
    decreases |s|
  {
    if Stuck(s) then s else Tail(s[Extent(s)..])
  }

  lemma HeadFields(r: Rec, s: bytes)
    requires |s| >= |Encode(r)| && s[..|Encode(r)|] == Encode(r)
    ensures s[0] == r.op && s[1..3] == LE(r.ch, 2) && s[3] == r.flags
    ensures s[4..8] == LE(|r.payload|, 4) && s[8..16] == LE(r.ts, 8)
    ensures s[16..20] == LE(r.crc, 4) && s[20..20 + |r.payload|] == r.payload
  {
    var h := Head(r);
    assert Encode(r)[..16] == h;
    assert s[..16] == h;
    assert s[1..3] == h[1..3] == LE(r.ch, 2);
    assert s[4..8] == h[4..8] == LE(|r.payload|, 4);
    assert s[8..16] == h[8..16] == LE(r.ts, 8);
    assert s[16..20] == Encode(r)[16..20] == LE(r.crc, 4);
    assert s[20..20 + |r.payload|] == Encode(r)[20..] == r.payload;
  }

  lemma DecodeOfEncode(r: Rec, rest: bytes)
    requires Framed(r)
    ensures !Stuck(Encode(r) + rest)
    ensures Decode(Encode(r) + rest) == r
    ensures Extent(Encode(r) + rest) == |Encode(r)|
  {
    var s := Encode(r) + rest;
    HeadFields(r, s);
    ReadBack(r.ch, |r.payload|, r.ts);
    ReadBack(0, r.crc, 0);
  }

  lemma EncodeOfDecode(s: bytes)
    requires !Stuck(s)
    ensures Encode(Decode(s)) == s[..Extent(s)]
  {
    hide LE, Nat, U16, U32, U64;
    var r := Decode(s);
    StoreBack(s[1..3], s[4..8], s[8..16]);
    StoreBack(s[1..3], s[16..20], s[8..16]);
    assert Head(r) == [s[0]] + s[1..3] + [s[3]] + s[4..8] + s[8..16] == s[..16];
    assert Encode(r) == s[..16] + s[16..20] + s[20..Extent(s)] == s[..Extent(s)];
  }

  lemma EncodeAllCons(r: Rec, rs: seq<Rec>, s: bytes)
    ensures EncodeAll([r] + rs) == Encode(r) + EncodeAll(rs)
    ensures EncodeAll([r] + rs) + s == Encode(r) + (EncodeAll(rs) + s)
  {
    assert ([r] + rs)[1..] == rs;
    assert (Encode(r) + EncodeAll(rs)) + s == Encode(r) + (EncodeAll(rs) + s);
  }

  lemma {:induction false} CountBound(rs: seq<Rec>)
    ensures ENVELOPE_SIZE * |rs| <= |EncodeAll(rs)|
  {
    if rs != [] {
      CountBound(rs[1..]);
    }
  }

  lemma WalkOnce(s: bytes)
    ensures Stuck(s) ==> Records(s) == [] && Tail(s) == s
    ensures !Stuck(s) ==> Records(s) == [Decode(s)] + Records(s[Extent(s)..]) && Tail(s) == Tail(s[Extent(s)..])
  {
    hide Stuck, Decode;
  }

  lemma {:induction false} WalkText(s: bytes)
    ensures EncodeAll(Records(s)) + Tail(s) == s
    decreases |s|
  {
    hide Decode, Encode, Stuck, Records, Tail;
    WalkOnce(s);
    if Stuck(s) {
      assert [] + s == s;
    } else {
      var n, r := Extent(s), Decode(s);
      var rest := s[n..];
      WalkText(rest);
      EncodeOfDecode(s);
      EncodeAllCons(r, Records(rest), Tail(rest));
      Seqs.SplitAt(s, n);
    }
  }

  lemma {:induction false} WalkEnd(s: bytes)
    ensures AllFramed(Records(s)) && Stuck(Tail(s))
    decreases |s|
  {
    hide Decode, Stuck;
    if !Stuck(s) {
      WalkEnd(s[Extent(s)..]);
    }
  }

  /** Every byte string is a sequence of records and a remainder in which the walk is stuck. */
  lemma Walk(s: bytes)
    ensures EncodeAll(Records(s)) + Tail(s) == s
    ensures AllFramed(Records(s)) && Stuck(Tail(s))
  {
    hide EncodeAll, Records, Tail, AllFramed, Stuck;
    WalkText(s);
    WalkEnd(s);
  }

  lemma WalkStep(r: Rec, rest: bytes)
    requires Framed(r)
    ensures Records(Encode(r) + rest) == [r] + Records(rest)
    ensures Tail(Encode(r) + rest) == Tail(rest)
  {
    DecodeOfEncode(r, rest);
    Seqs.DropPrefix(Encode(r), rest);
  }

  /** Records written in front of anything are found again, and the walk goes on behind them. */
  lemma {:induction false} WalkOf(rs: seq<Rec>, s: bytes)
    requires AllFramed(rs)
    ensures Records(EncodeAll(rs) + s) == rs + Records(s)
    ensures Tail(EncodeAll(rs) + s) == Tail(s)
    decreases |rs|
  {
    hide Encode, Records, Tail;
    if rs == [] {
      assert EncodeAll(rs) + s == s;
    } else {
      var r, more := rs[0], rs[1..];
      assert rs == [r] + more;
      EncodeAllCons(r, more, s);
      WalkStep(r, EncodeAll(more) + s);
      WalkOf(more, s);
      Seqs.Regroup([r], more, Records(s));
    }
  }

  /** The walk is the only way to read a byte string as records and a stuck remainder. */
  lemma WalkIsUnique(rs: seq<Rec>, t: bytes, s: bytes)
    requires s == EncodeAll(rs) + t && AllFramed(rs) && Stuck(t)
    ensures Records(s) == rs && Tail(s) == t
  {
    WalkOf(rs, t);
    assert rs + [] == rs;
  }

  lemma {:induction false} EncodeAllConcat(a: seq<Rec>, b: seq<Rec>)
    ensures EncodeAll(a + b) == EncodeAll(a) + EncodeAll(b)
    decreases |a|
  {
    if a == [] {
      assert a + b == b;
    } else {
      assert (a + b)[1..] == a[1..] + b;
      EncodeAllConcat(a[1..], b);
    }
  }

  lemma EncodeAllSnoc(a: seq<Rec>, r: Rec)
    ensures EncodeAll(a + [r]) == EncodeAll(a) + Encode(r)
  {
    EncodeAllConcat(a, [r]);
    assert EncodeAll([r]) == Encode(r) + EncodeAll([]);
  }

  lemma CutDecodes(s: bytes, n: nat)
    requires n <= |s| && !Stuck(s[..n])
    ensures !Stuck(s) && Extent(s) == Extent(s[..n]) <= n && Decode(s[..n]) == Decode(s)
  {
    var cut := s[..n];
    assert cut[4..8] == s[4..8];
    assert cut[1..3] == s[1..3] && cut[8..16] == s[8..16] && cut[16..20] == s[16..20];
    assert cut[20..Extent(s)] == s[20..Extent(s)];
  }

  /** Cutting a byte string anywhere leaves a prefix of its records. */
  lemma {:induction false} CutRecords(s: bytes, n: nat)
    requires n <= |s|
    ensures Records(s[..n]) <= Records(s)
    decreases |s|
  {
    if !Stuck(s[..n]) {
      CutDecodes(s, n);
      var k := Extent(s);
      Seqs.CutThenDrop(s, n, k);
      CutRecords(s[k..], n - k);
      assert Records(s[..n]) == [Decode(s)] + Records(s[k..][..n - k]);
    }
  }

  // ----- the footer -----

  function FooterHead(indexOffset: nat, recordCount: nat): (s: bytes)
    ensures |s| == 24
  {
    MAGIC + LE(indexOffset, 8) + LE(recordCount, 8)
  }

  function Footer(lib: Library, indexOffset: nat, recordCount: nat): (s: bytes)
    ensures |s| == FOOTER_SIZE
  {
    FooterHead(indexOffset, recordCount) + LE(lib.crc32(FooterHead(indexOffset, recordCount)), 4) + [0, 0, 0, 0]
  }

  /** Read as an envelope, the magic bytes 0D 0A 1A 0A claim a payload far longer than the footer. */
  lemma MagicStopsTheWalk(t: bytes)
    requires |t| == FOOTER_SIZE && t[..8] == MAGIC
    ensures Stuck(t)
  {
    assert t[4..8] == t[..8][4..8] == MAGIC[4..8] == [0x0D, 0x0A, 0x1A, 0x0A];
    assert t[4..8][1..][1..] == [0x1A, 0x0A];
    assert Nat([0x1A, 0x0A]) == 0x0A1A;
    assert Nat(t[4..8][1..]) == 0x0A + 256 * 0x0A1A;
    assert Nat(t[4..8]) > 12;
  }
}
