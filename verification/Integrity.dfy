/** The checksum test that reader and validator apply to a record in place. */
module Integrity {
  import opened Bytes
  import opened Format
  import opened Routines
  import Crc

  /** The checksum of envelope and payload, in two pieces, against the stored one, when the record carries one. */
  method CheckIntact(lib: Library, table: seq<bv32>, s: bytes) returns (ok: bool)
    requires Crc.IsTable(table) && Standard(lib) && !Stuck(s)
    ensures ok == Intact(lib, Decode(s))
  {
    hide Crc.IsTable, Crc.Update, Nat, LE, Stuck, PayloadLength;
    ok := true;
    var r := Decode(s);
    if Flagged(r) {
      HeadInPlace(s);
      var crc := Crc.Crc32(table, s[..16], 0);
      crc := Crc.Crc32(table, r.payload, crc);
      Crc.Chaining(0, s[..16], r.payload);
      assert Crc.Checksum(s[..16] + r.payload) == crc as int;
      ok := r.crc == crc as int;
    }
  }

  /** The checksum of a followed by b, computed in two pieces. */
  method ChecksumOfTwo(lib: Library, table: seq<bv32>, a: bytes, b: bytes) returns (sum: u32)
    requires Crc.IsTable(table) && Standard(lib)
    ensures sum == lib.crc32(a + b)
  {
    hide Crc.IsTable, Crc.Update;
    var crc := Crc.Crc32(table, a, 0);
    crc := Crc.Crc32(table, b, crc);
    Crc.Chaining(0, a, b);
    assert Crc.Checksum(a + b) == crc as int;
    sum := crc as int;
  }

  method BuildFooter(lib: Library, table: seq<bv32>, indexOffset: nat, recordCount: nat) returns (t: bytes)
    requires Crc.IsTable(table) && Standard(lib)
    ensures t == Footer(lib, indexOffset, recordCount)
  {
    hide Crc.IsTable, Standard, LE;
    var head := FooterHead(indexOffset, recordCount);
    var sum := ChecksumOfTwo(lib, table, head, []);
    assert head + [] == head;
    t := head + LE(sum, 4) + [0, 0, 0, 0];
  }

  lemma HeadInPlace(s: bytes)
    requires !Stuck(s)
    ensures Head(Decode(s)) == s[..16]
  {
    hide LE, Nat, Decode;
    EncodeOfDecode(s);
    assert Encode(Decode(s))[..16] == Head(Decode(s));
    assert s[..Extent(s)][..16] == s[..16];
  }
}
