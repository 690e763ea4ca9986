/** Validate: the whole-file check of a session, and what it finds in files the recorder closed. */
module Validation {
  import opened Bytes
  import opened Format
  import opened Outcomes
  import opened Routines
  import opened Stream
  import Crc
  import Integrity
  import Seqs

  /** How many of these records fail their checksum. */
  function Failing(lib: Library, rs: seq<Rec>): nat {
    if rs == [] then 0 else (if Intact(lib, rs[0]) then 0 else 1) + Failing(lib, rs[1..])
  }

  /** The last 32 bytes are a footer whose own checksum holds. */
  predicate FooterIntact(lib: Library, footer: bytes)
    requires |footer| == FOOTER_SIZE
  {
    footer[..8] == MAGIC && U32(footer[24..28]) == lib.crc32(footer[..24])
  }

  function LastBytes(file: bytes): bytes
    requires |file| >= FOOTER_SIZE
  {
    file[|file| - FOOTER_SIZE..]
  }

  /** The file can be checked at all: long enough, with both magics and an intact footer. */
  predicate Closed(lib: Library, file: bytes) {
    |file| >= HEADER_SIZE + FOOTER_SIZE && file[..8] == MAGIC && FooterIntact(lib, LastBytes(file))
  }

  /** Records that fail their checksum, and one more when the footer counts the records differently. */
  function Faults(lib: Library, file: bytes): nat
    requires Closed(lib, file)
  {
    Failing(lib, FileRecords(file)) + (if |FileRecords(file)| == U64(LastBytes(file)[16..24]) then 0 else 1)
  }

  /** The outcome over the segment files in order; None is a file that cannot be opened. */
  function Verdict(lib: Library, files: seq<Option<bytes>>, corrupt: nat): (Status, nat) {
    if files == [] then (if corrupt == 0 then Ok else ErrorCorrupted, corrupt)
    else if files[0].None? then (ErrorIO, 0)
    else if !Closed(lib, files[0].value) then (ErrorCorrupted, 0)
    else Verdict(lib, files[1..], corrupt + Faults(lib, files[0].value))
  }

  // ----- what the answer means -----

  /** Long enough for header and footer, both with the magic, and the footer's first 24 bytes under their checksum. */
  ghost predicate WellEnded(lib: Library, file: bytes) {
    && |file| >= 96 && file[..8] == MAGIC
    && file[|file| - 32..|file| - 24] == MAGIC
    && U32(file[|file| - 8..|file| - 4]) == lib.crc32(file[|file| - 32..|file| - 8])
  }

  /** The footer's record count. */
  ghost function CountInFooter(file: bytes): nat
    requires |file| >= 96
  {
    U64(file[|file| - 16..|file| - 8])
  }

  lemma ClosedIsWellEnded(lib: Library, file: bytes)
    ensures Closed(lib, file) <==> WellEnded(lib, file)
    ensures Closed(lib, file) ==> U64(LastBytes(file)[16..24]) == CountInFooter(file)
  {
    hide U32, U64;
    if |file| >= 96 {
      var t := file[|file| - 32..];
      assert t[..8] == file[|file| - 32..|file| - 24];
      assert t[..24] == file[|file| - 32..|file| - 8] && t[24..28] == file[|file| - 8..|file| - 4];
      assert t[16..24] == file[|file| - 16..|file| - 8];
    }
  }

  /** The records that fail, each with the number of its file. */
  ghost function FailingFrom(lib: Library, rs: seq<Rec>, f: nat, k: nat): set<(nat, nat)> {
    set i: nat | k <= i < |rs| && !Intact(lib, rs[i]) :: (f, i)
  }

  lemma {:induction false} FailingIsSize(lib: Library, rs: seq<Rec>, f: nat, k: nat)
    requires k <= |rs|
    ensures Failing(lib, rs[k..]) == |FailingFrom(lib, rs, f, k)|
    decreases |rs| - k
  {
    hide Intact;
    if k == |rs| {
      assert FailingFrom(lib, rs, f, k) == {};
    } else {
      FailingIsSize(lib, rs, f, k + 1);
      assert rs[k..][1..] == rs[k + 1..];
      var rest := FailingFrom(lib, rs, f, k + 1);
      if Intact(lib, rs[k]) {
        assert FailingFrom(lib, rs, f, k) == rest;
      } else {
        assert FailingFrom(lib, rs, f, k) == rest + {(f, k)};
        assert (f, k) !in rest;
      }
    }
  }

  ghost predicate AllClosed(lib: Library, files: seq<Option<bytes>>) {
    forall f :: 0 <= f < |files| ==> files[f].Some? && WellEnded(lib, files[f].value)
  }

  /** File and number of every record that fails its checksum, in the files from number k on. */
  ghost function BadRecords(lib: Library, files: seq<Option<bytes>>, k: nat): set<(nat, nat)> {
    set f: nat, i: nat | k <= f < |files| && files[f].Some? && i < |FileRecords(files[f].value)|
                         && !Intact(lib, FileRecords(files[f].value)[i]) :: (f, i)
  }

  /** The files whose footer counts other than the records that are there. */
  ghost function Miscounted(files: seq<Option<bytes>>, k: nat): set<nat> {
    set f: nat | k <= f < |files| && files[f].Some? && |files[f].value| >= 96 && CountInFooter(files[f].value) != |FileRecords(files[f].value)|
  }

  lemma BadHereAndLater(lib: Library, files: seq<Option<bytes>>, k: nat)
    requires k < |files| && files[k].Some?
    ensures var here, later := FailingFrom(lib, FileRecords(files[k].value), k, 0), BadRecords(lib, files, k + 1);
            BadRecords(lib, files, k) == here + later && here !! later
  {
    hide Intact, FileRecords;
  }

  lemma BadCount(lib: Library, files: seq<Option<bytes>>, k: nat)
    requires k < |files| && files[k].Some?
    ensures |BadRecords(lib, files, k)| == |BadRecords(lib, files, k + 1)| + Failing(lib, FileRecords(files[k].value))
  {
    hide FileRecords, FailingFrom, BadRecords, Failing;
    var rs := FileRecords(files[k].value);
    BadHereAndLater(lib, files, k);
    assert rs[0..] == rs;
    FailingIsSize(lib, rs, k, 0);
  }

  lemma MiscountedHere(files: seq<Option<bytes>>, k: nat)
    requires k < |files| && files[k].Some? && |files[k].value| >= 96
    ensures |Miscounted(files, k)| ==
            |Miscounted(files, k + 1)| + if CountInFooter(files[k].value) == |FileRecords(files[k].value)| then 0 else 1
  {
    hide FileRecords, CountInFooter;
    var rest := Miscounted(files, k + 1);
    if CountInFooter(files[k].value) == |FileRecords(files[k].value)| {
      assert Miscounted(files, k) == rest;
    } else {
      assert Miscounted(files, k) == rest + {k};
      assert k !in rest;
    }
  }

  lemma LongEnough(lib: Library, file: bytes)
    requires WellEnded(lib, file)
    ensures |file| >= 96
  {
  }

  lemma FaultsAreSizes(lib: Library, files: seq<Option<bytes>>, k: nat)
    requires k < |files| && AllClosed(lib, files)
    ensures Closed(lib, files[k].value)
    ensures |BadRecords(lib, files, k)| + |Miscounted(files, k)| ==
            |BadRecords(lib, files, k + 1)| + |Miscounted(files, k + 1)| + Faults(lib, files[k].value)
  {
    hide FileRecords, Closed, WellEnded, Failing, CountInFooter, BadRecords, Miscounted;
    ClosedIsWellEnded(lib, files[k].value);
    BadCount(lib, files, k);
    LongEnough(lib, files[k].value);
    MiscountedHere(files, k);
  }

  lemma {:induction false} CountsAreSizes(lib: Library, files: seq<Option<bytes>>, k: nat, corrupt: nat)
    requires k <= |files| && AllClosed(lib, files)
    ensures var n := corrupt + |BadRecords(lib, files, k)| + |Miscounted(files, k)|;
            Verdict(lib, files[k..], corrupt) == (if n == 0 then Ok else ErrorCorrupted, n)
    decreases |files| - k
  {
    hide Closed, Faults, WellEnded, BadRecords, Miscounted;
    if k == |files| {
      NothingThere(lib, files);
    } else {
      FaultsAreSizes(lib, files, k);
      assert files[k..][1..] == files[k + 1..];
      CountsAreSizes(lib, files, k + 1, corrupt + Faults(lib, files[k].value));
    }
  }

  lemma NothingThere(lib: Library, files: seq<Option<bytes>>)
    ensures BadRecords(lib, files, |files|) == {} && Miscounted(files, |files|) == {}
  {
  }

  /** When every file is there and well ended, the count is that of the failing records and of the miscounted footers. */
  lemma VerdictCounts(lib: Library, files: seq<Option<bytes>>)
    requires AllClosed(lib, files)
    ensures Verdict(lib, files, 0).1 == |BadRecords(lib, files, 0)| + |Miscounted(files, 0)|
    ensures Verdict(lib, files, 0).0 == if Verdict(lib, files, 0).1 == 0 then Ok else ErrorCorrupted
  {
    hide BadRecords, Miscounted, AllClosed;
    assert files[0..] == files;
    CountsAreSizes(lib, files, 0, 0);
  }

  lemma {:induction false} FirstStops(lib: Library, files: seq<Option<bytes>>, k: nat, corrupt: nat)
    requires k < |files| && (files[k].None? || !WellEnded(lib, files[k].value))
    requires forall f :: 0 <= f < k ==> files[f].Some? && WellEnded(lib, files[f].value)
    ensures Verdict(lib, files, corrupt) == (if files[k].None? then ErrorIO else ErrorCorrupted, 0)
    decreases k
  {
    hide Closed, Faults, WellEnded;
    if files[0].Some? {
      ClosedIsWellEnded(lib, files[0].value);
    }
    if k > 0 {
      FirstStops(lib, files[1..], k - 1, corrupt + Faults(lib, files[0].value));
    }
  }

  /** The first file that is absent or not well ended. */
  ghost predicate StopsAt(lib: Library, files: seq<Option<bytes>>, k: nat) {
    && k < |files| && (files[k].None? || !WellEnded(lib, files[k].value))
    && forall f :: 0 <= f < k ==> files[f].Some? && WellEnded(lib, files[f].value)
  }

  /** The first file that is absent or not well ended decides the answer, and nothing is counted. */
  lemma VerdictStops(lib: Library, files: seq<Option<bytes>>, k: nat)
    requires StopsAt(lib, files, k)
    ensures k < |files|
    ensures Verdict(lib, files, 0) == (if files[k].None? then ErrorIO else ErrorCorrupted, 0)
  {
    hide WellEnded;
    FirstStops(lib, files, k, 0);
  }

  /** Nothing is wrong with the file. */
  ghost predicate Flawless(lib: Library, file: bytes) {
    WellEnded(lib, file) && AllIntact(lib, FileRecords(file)) && CountInFooter(file) == |FileRecords(file)|
  }

  lemma {:induction false} FirstBad(lib: Library, files: seq<Option<bytes>>, n: nat) returns (k: nat)
    requires n <= |files|
    ensures k <= n && (k < n ==> files[k].None? || !WellEnded(lib, files[k].value))
    ensures forall f :: 0 <= f < k ==> files[f].Some? && WellEnded(lib, files[f].value)
    decreases n
  {
    hide WellEnded;
    if n == 0 {
      k := 0;
    } else {
      k := FirstBad(lib, files, n - 1);
      if k == n - 1 && files[k].Some? && WellEnded(lib, files[k].value) {
        k := n;
      }
    }
  }

  lemma NoneBad(lib: Library, files: seq<Option<bytes>>)
    requires AllClosed(lib, files)
    ensures BadRecords(lib, files, 0) == {} && Miscounted(files, 0) == {} <==> forall f :: 0 <= f < |files| ==> Flawless(lib, files[f].value)
  {
    hide Intact, FileRecords, CountInFooter;
    forall f | 0 <= f < |files| && BadRecords(lib, files, 0) == {} && Miscounted(files, 0) == {}
      ensures Flawless(lib, files[f].value)
    {
      var rs := FileRecords(files[f].value);
      forall i | 0 <= i < |rs|
        ensures Intact(lib, rs[i])
      {
        assert (f, i) !in BadRecords(lib, files, 0);
      }
      assert f !in Miscounted(files, 0);
    }
  }

  /** Validate answers Ok if and only if every file is there and flawless. */
  lemma VerdictIsOk(lib: Library, files: seq<Option<bytes>>)
    ensures Verdict(lib, files, 0).0 == Ok <==> forall f :: 0 <= f < |files| ==> files[f].Some? && Flawless(lib, files[f].value)
  {
    hide Verdict, WellEnded, BadRecords, Miscounted, AllIntact, FileRecords, CountInFooter;
    var k := FirstBad(lib, files, |files|);
    if k < |files| {
      VerdictStops(lib, files, k);
    } else {
      VerdictCounts(lib, files);
      NoneBad(lib, files);
    }
  }

  lemma WhatItMeans(lib: Library, files: seq<Option<bytes>>)
    ensures Verdict(lib, files, 0).0 == Ok <==> forall f :: 0 <= f < |files| ==> files[f].Some? && Flawless(lib, files[f].value)
    ensures forall k: nat :: StopsAt(lib, files, k) ==>
              k < |files| && Verdict(lib, files, 0) == (if files[k].None? then ErrorIO else ErrorCorrupted, 0)
    ensures AllClosed(lib, files) ==> Verdict(lib, files, 0).1 == |BadRecords(lib, files, 0)| + |Miscounted(files, 0)|
  {
    hide Flawless, StopsAt, AllClosed, BadRecords, Miscounted, Verdict;
    VerdictIsOk(lib, files);
    forall k: nat | StopsAt(lib, files, k)
      ensures k < |files| && Verdict(lib, files, 0) == (if files[k].None? then ErrorIO else ErrorCorrupted, 0)
    {
      VerdictStops(lib, files, k);
    }
    if AllClosed(lib, files) {
      VerdictCounts(lib, files);
    }
  }

  // ----- the check -----

  /** Walks the records of one file. */
  method CountFaults(lib: Library, table: seq<bv32>, file: bytes) returns (corrupt: nat)
    requires Crc.IsTable(table) && Standard(lib) && Closed(lib, file)
    ensures corrupt == Faults(lib, file)
  {
    hide Crc.IsTable, Standard, Intact, Stuck, Decode, PayloadLength, FooterIntact;
    corrupt := 0;
    var offset := HEADER_SIZE;
    var recCount := 0;
    while !Stuck(file[offset..])
      invariant HEADER_SIZE <= offset <= |file|
      invariant corrupt + Failing(lib, Records(file[offset..])) == Failing(lib, FileRecords(file))
      invariant recCount + |Records(file[offset..])| == |FileRecords(file)|
      decreases |file| - offset
    {
      var s := file[offset..];
      var ok := Integrity.CheckIntact(lib, table, s);
      FailingStep(lib, s);
      Seqs.DropTwice(file, offset, Extent(s));
      if !ok {
        corrupt := corrupt + 1;
      }
      recCount := recCount + 1;
      offset := offset + Extent(s);
    }
    if recCount != U64(LastBytes(file)[16..24]) {
      corrupt := corrupt + 1;
    }
  }

  lemma FailingStep(lib: Library, s: bytes)
    requires !Stuck(s)
    ensures Failing(lib, Records(s)) == (if Intact(lib, Decode(s)) then 0 else 1) + Failing(lib, Records(s[Extent(s)..]))
    ensures |Records(s)| == 1 + |Records(s[Extent(s)..])|
  {
    hide Stuck, Decode, Intact, PayloadLength;
    assert Records(s)[1..] == Records(s[Extent(s)..]);
  }

  method CheckFooter(lib: Library, table: seq<bv32>, file: bytes) returns (ok: bool)
    requires Crc.IsTable(table) && Standard(lib)
    ensures ok == Closed(lib, file)
  {
    hide Crc.IsTable, U32;
    if |file| < HEADER_SIZE + FOOTER_SIZE || file[..8] != MAGIC {
      return false;
    }
    var footer := file[|file| - FOOTER_SIZE..];
    if footer[..8] != MAGIC {
      return false;
    }
    var crc := Crc.Crc32(table, footer[..24], 0);
    assert Crc.Checksum(footer[..24]) == crc as int;
    ok := U32(footer[24..28]) == crc as int;
  }

  /** Checks every segment file; the count is delivered only when all of them could be walked. */
  method Validate(lib: Library, files: seq<Option<bytes>>) returns (st: Status, corrupt: nat)
    requires Standard(lib)
    ensures (st, corrupt) == Verdict(lib, files, 0)
    ensures st == Ok <==> forall f :: 0 <= f < |files| ==> files[f].Some? && Flawless(lib, files[f].value)
    ensures forall k: nat :: StopsAt(lib, files, k) ==> k < |files| && (st, corrupt) == (if files[k].None? then ErrorIO else ErrorCorrupted, 0)
    ensures AllClosed(lib, files) ==> corrupt == |BadRecords(lib, files, 0)| + |Miscounted(files, 0)|
  {
    hide Crc.IsTable, Standard, Faults, Closed, Flawless, StopsAt, AllClosed, BadRecords, Miscounted;
    WhatItMeans(lib, files);
    var table := Crc.BuildTable();
    corrupt := 0;
    for i := 0 to |files|
      invariant Verdict(lib, files[i..], corrupt) == Verdict(lib, files, 0)
    {
      assert files[i..][1..] == files[i + 1..];
      if files[i].None? {
        return ErrorIO, 0;
      }
      var ok := CheckFooter(lib, table, files[i].value);
      if !ok {
        return ErrorCorrupted, 0;
      }
      var n := CountFaults(lib, table, files[i].value);
      corrupt := corrupt + n;
    }
    st := if corrupt == 0 then Ok else ErrorCorrupted;
  }

  // ----- files that end in a footer of the expected form -----

  lemma {:induction false} NoneFailing(lib: Library, rs: seq<Rec>)
    ensures Failing(lib, rs) == 0 <==> AllIntact(lib, rs)
  {
    hide Intact;
    if rs != [] {
      NoneFailing(lib, rs[1..]);
      assert rs == [rs[0]] + rs[1..];
    }
  }

  /** A header and records, closed by a footer that counts them, are found closed with exactly the failing records. */
  lemma FooteredFile(lib: Library, header: bytes, rs: seq<Rec>, indexOffset: nat)
    requires |header| == HEADER_SIZE && header[..8] == MAGIC && AllFramed(rs) && |rs| <= U64_MAX
    ensures var file := header + EncodeAll(rs) + Footer(lib, indexOffset, |rs|);
            Closed(lib, file) && FileRecords(file) == rs && Faults(lib, file) == Failing(lib, rs)
  {
    hide EncodeAll, Records, Tail, Stuck, Intact, LE, U64, U32, AllFramed;
    var footer := Footer(lib, indexOffset, |rs|);
    var file := header + EncodeAll(rs) + footer;
    Seqs.Regroup(header, EncodeAll(rs), footer);
    Seqs.DropPrefix(header, EncodeAll(rs) + footer);
    assert file[..8] == header[..8];
    assert LastBytes(file) == footer;
    FooterFields(lib, indexOffset, |rs|);
    MagicStopsTheWalk(footer);
    WalkIsUnique(rs, footer, EncodeAll(rs) + footer);
  }

  lemma FooterFields(lib: Library, indexOffset: nat, recordCount: u64)
    ensures var t := Footer(lib, indexOffset, recordCount);
            FooterIntact(lib, t) && U64(t[16..24]) == recordCount && t[..8] == MAGIC
  {
    hide LE, Nat;
    var t := Footer(lib, indexOffset, recordCount);
    var h := FooterHead(indexOffset, recordCount);
    assert t[..24] == h && t[24..28] == LE(lib.crc32(h), 4);
    assert t[..8] == h[..8] == MAGIC;
    assert t[16..24] == h[16..24] == LE(recordCount, 8);
    ReadBack(0, lib.crc32(h), recordCount);
  }
}
