/** Short bursts of damage inside a checksummed record: always noticed, and contained to that record. */
module Damage {
  import opened Bytes
  import opened Format
  import opened Routines
  import opened Stream
  import Crc

  /** Positions of a record of n bytes that its checksum covers and that do not frame it: op and channel, timestamp, payload. */
  predicate Covered(lo: nat, hi: nat, n: nat) {
    (lo == 0 && hi == 3) || (lo == 8 && hi == 16) || (lo == 20 && hi == n)
  }

  /** t differs from s, and only at positions of [lo, hi) that lie in a window of four adjacent bytes at p. */
  ghost predicate Burst(s: bytes, t: bytes, lo: nat, hi: nat, p: nat) {
    && |s| == |t| && s != t
    && forall q :: 0 <= q < |s| && !(lo <= q < hi && p <= q < p + 4) ==> s[q] == t[q]
  }

  /** Framing, flags and stored checksum of the damaged record are those of the original. */
  lemma DamagedFrame(e: bytes, d: bytes, lo: nat, hi: nat, p: nat)
    requires !Stuck(e) && Extent(e) == |e| && Covered(lo, hi, |e|) && Burst(e, d, lo, hi, p)
    ensures !Stuck(d) && Extent(d) == |d| == |e|
    ensures Decode(d).flags == Decode(e).flags && Decode(d).crc == Decode(e).crc
    ensures Encode(Decode(d)) == d && Encode(Decode(e)) == e
  {
    hide U16, U32, U64, Encode;
    assert d[4..8] == e[4..8] && d[16..20] == e[16..20] && d[3] == e[3];
    EncodeOfDecode(e);
    EncodeOfDecode(d);
    assert e[..|e|] == e && d[..|d|] == d;
  }

  /** The bytes a checksum is computed over. */
  function Checked(e: bytes): (s: bytes)
    requires |e| >= ENVELOPE_SIZE
    ensures |s| == |e| - 4
  {
    e[..16] + e[20..]
  }

  lemma CheckedBytes(e: bytes)
    requires !Stuck(e) && Extent(e) == |e|
    ensures Checked(e) == Head(Decode(e)) + Decode(e).payload
  {
    hide U16, U32, U64, LE, Decode;
    var r := Decode(e);
    EncodeOfDecode(e);
    assert e[..|e|] == e;
    assert e[..16] == Encode(r)[..16] == Head(r);
    assert e[20..] == Encode(r)[20..] == r.payload;
  }

  lemma CheckedBurst(e: bytes, d: bytes, lo: nat, hi: nat, p: nat) returns (k: nat)
    requires |e| >= ENVELOPE_SIZE && Covered(lo, hi, |e|) && Burst(e, d, lo, hi, p)
    ensures Checked(e) != Checked(d)
    ensures forall i :: 0 <= i < |Checked(e)| && !(k <= i < k + 4) ==> Checked(e)[i] == Checked(d)[i]
  {
    var q :| 0 <= q < |e| && e[q] != d[q];
    if lo == 20 {
      k := if p >= 20 then p - 4 else 16;
      assert Checked(e)[q - 4] == e[q] && Checked(d)[q - 4] == d[q];
    } else {
      k := p;
      assert Checked(e)[q] == e[q] && Checked(d)[q] == d[q];
    }
  }

  /** A burst in an intact, checksummed record breaks its checksum. */
  lemma BurstBreaksRecord(lib: Library, e: bytes, d: bytes, lo: nat, hi: nat, p: nat)
    requires Standard(lib) && !Stuck(e) && Extent(e) == |e| && Covered(lo, hi, |e|) && Burst(e, d, lo, hi, p)
    requires Flagged(Decode(e)) && Intact(lib, Decode(e))
    ensures !Stuck(d) && Extent(d) == |d| && !Intact(lib, Decode(d))
  {
    hide Decode, Stuck, Checked, Covered, Burst, Head;
    DamagedFrame(e, d, lo, hi, p);
    CheckedBytes(e);
    CheckedBytes(d);
    BigEnough(e);
    var k := CheckedBurst(e, d, lo, hi, p);
    Crc.BurstChangesChecksum(Checked(e), Checked(d), k);
  }

  lemma BigEnough(e: bytes)
    requires !Stuck(e)
    ensures |e| >= ENVELOPE_SIZE
  {
  }

  lemma RecordsAround(pre: seq<Rec>, e: bytes, rest: bytes)
    requires AllFramed(pre) && !Stuck(e) && Extent(e) == |e|
    ensures Records(EncodeAll(pre) + (e + rest)) == pre + ([Decode(e)] + Records(rest))
  {
    hide Decode, EncodeAll, Encode;
    WalkOf(pre, e + rest);
    EncodeOfDecode(e);
    assert e[..|e|] == e;
    WalkStep(Decode(e), rest);
  }

  lemma MsgsAround(lib: Library, pre: seq<Rec>, r: Rec, post: seq<Rec>)
    ensures Msgs(lib, pre + ([r] + post)) == Msgs(lib, pre) + (RecMsgs(lib, r) + Msgs(lib, post))
    ensures Corrupt(lib, pre + ([r] + post)) == Corrupt(lib, pre) + (RecCorrupt(lib, r) + Corrupt(lib, post))
  {
    hide RecMsgs, RecCorrupt;
    MsgsConcat(lib, pre, [r] + post);
    assert ([r] + post)[1..] == post;
  }

  /**
   * Damage of up to four adjacent bytes inside one intact, checksummed record, whatever the bytes:
   * the reader drops exactly that record, counts it, and delivers all others unchanged.
   */
  lemma BurstIsContained(lib: Library, pre: seq<Rec>, e: bytes, d: bytes, rest: bytes, lo: nat, hi: nat, p: nat)
    requires Standard(lib) && AllFramed(pre) && !Stuck(e) && Extent(e) == |e| && Covered(lo, hi, |e|) && Burst(e, d, lo, hi, p)
    requires Flagged(Decode(e)) && Intact(lib, Decode(e))
    ensures !Stuck(d) && !Intact(lib, Decode(d))
    ensures var whole := Records(EncodeAll(pre) + (e + rest));
            var damaged := Records(EncodeAll(pre) + (d + rest));
            && whole == pre + ([Decode(e)] + Records(rest))
            && damaged == pre + ([Decode(d)] + Records(rest))
            && Msgs(lib, damaged) == Msgs(lib, pre) + Msgs(lib, Records(rest))
            && Msgs(lib, whole) == Msgs(lib, pre) + (RecMsgs(lib, Decode(e)) + Msgs(lib, Records(rest)))
            && Corrupt(lib, damaged) == Corrupt(lib, pre) + 1 + Corrupt(lib, Records(rest))
  {
    hide Decode, Stuck, EncodeAll, Records, Msgs, Corrupt, Burst, Covered, Intact, AllFramed, Standard, Flagged;
    BurstBreaksRecord(lib, e, d, lo, hi, p);
    RecordsAround(pre, e, rest);
    RecordsAround(pre, d, rest);
    MsgsAround(lib, pre, Decode(e), Records(rest));
    MsgsAround(lib, pre, Decode(d), Records(rest));
    assert [] + Msgs(lib, Records(rest)) == Msgs(lib, Records(rest));
  }
}
