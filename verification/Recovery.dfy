/** Recover: rebuilding index and footer behind the complete records of a segment, and what that preserves. */
module Recovery {
  import opened Bytes
  import opened Format
  import opened Outcomes
  import opened Routines
  import opened Stream
  import opened Index
  import opened Summary
  import opened Validation
  import Crc
  import Integrity
  import Seqs

  const RECOVERY_INTERVAL: u64 := 1_000_000_000

  /** The rebuilt INDEX record; it carries a checksum of as much of its payload as a 32-bit length can say. */
  function IndexRecord(lib: Library, rs: seq<Rec>): (r: Rec)
    ensures r.op == OP_INDEX && (|r.payload| < 0x1_0000_0000 ==> Intact(lib, r))
    ensures r.payload == StoredPoints(PointsOf(RECOVERY_INTERVAL, rs))
  {
    hide PointsOf, StoredPoints, Greatest;
    var payload := StoredPoints(PointsOf(RECOVERY_INTERVAL, rs));
    var r := Rec(OP_INDEX, INVALID_CHANNEL, FLAG_CRC, Greatest(rs), 0, payload);
    var sealed := r.(crc := lib.crc32(Head(r) + payload[..|payload| % 0x1_0000_0000]));
    assert Head(sealed) == Head(r);
    assert |payload| < 0x1_0000_0000 ==> payload[..|payload| % 0x1_0000_0000] == payload;
    sealed
  }

  predicate Recoverable(file: bytes) { |file| >= HEADER_SIZE && file[..8] == MAGIC }

  /** The file as Recover rewrites it: header and complete records verbatim, then index and footer. */
  function Recovered(lib: Library, file: bytes): bytes
    requires |file| >= HEADER_SIZE
  {
    var rs := FileRecords(file);
    file[..HEADER_SIZE] + EncodeAll(rs) + Encode(IndexRecord(lib, rs))
    + Footer(lib, HEADER_SIZE + |EncodeAll(rs)|, |rs| + 1)
  }

  /** The scan of one file: where its complete records end, how many they are, their range and their index. */
  method ScanRecords(file: bytes) returns (offset: nat, recCount: nat, startNs: u64, endNs: u64, indexPayload: bytes)
    requires |file| >= HEADER_SIZE
    ensures var rs := FileRecords(file);
            && offset == HEADER_SIZE + |EncodeAll(rs)| <= |file| && file[..offset] == file[..HEADER_SIZE] + EncodeAll(rs)
            && recCount == |rs| && startNs == StartOf(rs) && endNs == Greatest(rs)
            && indexPayload == StoredPoints(PointsOf(RECOVERY_INTERVAL, rs))
  {
    hide Stuck, Decode, PayloadLength, EncodeAll, Encode, Records, PointsOf, AddIfDue, StoredPoints, Least, Greatest;
    var idx := new IndexBuilder(RECOVERY_INTERVAL);
    ghost var body := file[HEADER_SIZE..];
    ghost var done: seq<Rec> := [];
    Start(body);
    offset, recCount, startNs, endNs := HEADER_SIZE, 0, U64_MAX, 0;
    while !Stuck(file[offset..])
      invariant HEADER_SIZE <= offset <= |file| && fresh(idx)
      invariant done + Records(file[offset..]) == Records(body)
      invariant offset == HEADER_SIZE + |EncodeAll(done)| && file[..offset] == file[..HEADER_SIZE] + EncodeAll(done)
      invariant recCount == |done| && startNs == Least(done) && endNs == Greatest(done)
      invariant idx.Valid() && idx.Interval == RECOVERY_INTERVAL && idx.Points == PointsOf(RECOVERY_INTERVAL, done)
      decreases |file| - offset
    {
      var s := file[offset..];
      var r := Decode(s);
      ScanStep(file, offset, done);
      PointsSnoc(RECOVERY_INTERVAL, done, r);
      recCount := recCount + 1;
      if r.op == OP_DATA || r.op == OP_CHUNK {
        if r.ts < startNs {
          startNs := r.ts;
        }
        if r.ts > endNs {
          endNs := r.ts;
        }
        idx.MaybeAdd(r.ch, r.ts, offset);
      }
      done := done + [r];
      offset := offset + Extent(s);
    }
    Stop(file[offset..]);
    assert done + [] == done;
    if startNs == U64_MAX {
      startNs := 0;
    }
    indexPayload := idx.Serialise();
  }

  lemma Start(body: bytes)
    ensures [] + Records(body) == Records(body) && EncodeAll([]) == []
    ensures Least([]) == U64_MAX && Greatest([]) == 0 && PointsOf(RECOVERY_INTERVAL, []) == []
  {
  }

  lemma Stop(s: bytes)
    requires Stuck(s)
    ensures Records(s) == []
  {
  }

  lemma ScanStep(file: bytes, offset: nat, done: seq<Rec>)
    requires HEADER_SIZE <= offset <= |file| && !Stuck(file[offset..])
    requires file[..offset] == file[..HEADER_SIZE] + EncodeAll(done)
    ensures var s := file[offset..];
            var n := Extent(s);
            && offset + n <= |file|
            && done + Records(s) == (done + [Decode(s)]) + Records(file[offset + n..])
            && |EncodeAll(done + [Decode(s)])| == |EncodeAll(done)| + n
            && file[..offset + n] == file[..HEADER_SIZE] + EncodeAll(done + [Decode(s)])
  {
    hide Stuck, Decode, PayloadLength, EncodeAll, Encode;
    var s := file[offset..];
    var n, r := Extent(s), Decode(s);
    EncodeOfDecode(s);
    EncodeAllSnoc(done, r);
    Seqs.DropTwice(file, offset, n);
    Seqs.Regroup(done, [r], Records(s[n..]));
    assert file[..offset + n] == file[..offset] + s[..n];
    Seqs.Regroup(file[..HEADER_SIZE], EncodeAll(done), Encode(r));
  }

  /** The rebuilt index fits the 32-bit length of its record. */
  predicate IndexFits(file: bytes) {
    |StoredPoints(PointsOf(RECOVERY_INTERVAL, FileRecords(file)))| < 0x1_0000_0000
  }

  /** Rewrites one segment file; a file without a valid start is left alone. */
  method RecoverFile(lib: Library, file: bytes) returns (out: Option<bytes>, startNs: u64, endNs: u64)
    requires Standard(lib)
    ensures out == if Recoverable(file) then Some(Recovered(lib, file)) else None
    ensures Recoverable(file) ==> startNs == StartOf(FileRecords(file)) && endNs == Greatest(FileRecords(file))
  {
    hide Standard, Crc.IsTable, EncodeAll, PointsOf, StoredPoints, LE, FileRecords, Least, Greatest, StartOf, Footer;
    out, startNs, endNs := None, 0, 0;
    if |file| < HEADER_SIZE || file[..8] != MAGIC {
      return;
    }
    var offset, recCount, indexPayload;
    offset, recCount, startNs, endNs, indexPayload := ScanRecords(file);
    var table := Crc.BuildTable();
    var env := Rec(OP_INDEX, INVALID_CHANNEL, FLAG_CRC, endNs, 0, indexPayload);
    var sum := Integrity.ChecksumOfTwo(lib, table, Head(env), indexPayload[..|indexPayload| % 0x1_0000_0000]);
    var footer := Integrity.BuildFooter(lib, table, offset, recCount + 1);
    out := Some(file[..offset] + Encode(env.(crc := sum)) + footer);
  }

  // ----- what recovery preserves, for every file with a valid start -----

  /** The recovered file has the same records and one more, its index; the walk ends exactly at the new footer. */
  lemma RecoveredRecords(lib: Library, file: bytes)
    requires Recoverable(file) && IndexFits(file) && |file| < U64_MAX
    ensures var rs := FileRecords(file);
            && Closed(lib, Recovered(lib, file))
            && FileRecords(Recovered(lib, file)) == rs + [IndexRecord(lib, rs)]
            && Faults(lib, Recovered(lib, file)) == Failing(lib, rs)
  {
    hide EncodeAll, Records, AllFramed, Closed, Faults, Failing, Intact, PointsOf, StoredPoints, Footer, IndexRecord, Stuck;
    var rs := FileRecords(file);
    var index := IndexRecord(lib, rs);
    Walk(file[HEADER_SIZE..]);
    CountBound(rs);
    EncodeAllSnoc(rs, index);
    FramedSnoc(rs, index);
    Seqs.Regroup(file[..HEADER_SIZE], EncodeAll(rs), Encode(index));
    assert file[..HEADER_SIZE][..8] == file[..8];
    FooteredFile(lib, file[..HEADER_SIZE], rs + [index], HEADER_SIZE + |EncodeAll(rs)|);
    FailingSnoc(lib, rs, index);
  }

  lemma FramedSnoc(rs: seq<Rec>, r: Rec)
    requires AllFramed(rs) && Framed(r)
    ensures AllFramed(rs + [r])
  {
  }

  lemma {:induction false} FailingSnoc(lib: Library, rs: seq<Rec>, r: Rec)
    requires Intact(lib, r)
    ensures Failing(lib, rs + [r]) == Failing(lib, rs)
    decreases |rs|
  {
    hide Intact;
    if rs == [] {
      assert [r][1..] == [];
    } else {
      assert (rs + [r])[1..] == rs[1..] + [r];
      FailingSnoc(lib, rs[1..], r);
    }
  }

  /** Recovery changes nothing a reader delivers: the same messages, and the same corrupt records are skipped. */
  lemma RecoveryPreservesMessages(lib: Library, file: bytes)
    requires Recoverable(file) && IndexFits(file) && |file| < U64_MAX
    ensures Msgs(lib, FileRecords(Recovered(lib, file))) == Msgs(lib, FileRecords(file))
    ensures Corrupt(lib, FileRecords(Recovered(lib, file))) == Corrupt(lib, FileRecords(file))
  {
    hide FileRecords, Recovered, IndexFits, IndexRecord, Msgs, Corrupt;
    RecoveredRecords(lib, file);
    var rs := FileRecords(file);
    MsgsConcat(lib, rs, [IndexRecord(lib, rs)]);
    IndexCarriesNothing(lib, file);
    assert Msgs(lib, rs) + [] == Msgs(lib, rs);
  }

  lemma IndexCarriesNothing(lib: Library, file: bytes)
    requires IndexFits(file)
    ensures var r := IndexRecord(lib, FileRecords(file));
            Intact(lib, r) && r.op == OP_INDEX && Msgs(lib, [r]) == [] && Corrupt(lib, [r]) == 0
  {
    hide FileRecords, IndexRecord, Intact, PointsOf, StoredPoints;
    var r := IndexRecord(lib, FileRecords(file));
    assert [r][1..] == [];
  }

  /** Validate accepts a recovered file exactly when no complete record of the original fails its checksum. */
  lemma RecoveredVerdict(lib: Library, file: bytes)
    requires Recoverable(file) && IndexFits(file) && |file| < U64_MAX
    ensures Verdict(lib, [Some(Recovered(lib, file))], 0) ==
            (if AllIntact(lib, FileRecords(file)) then Ok else ErrorCorrupted, Failing(lib, FileRecords(file)))
  {
    hide FileRecords, Recovered, IndexFits, Closed, Faults, Failing, AllIntact;
    RecoveredRecords(lib, file);
    NoneFailing(lib, FileRecords(file));
    assert [Some(Recovered(lib, file))][1..] == [];
    assert Verdict(lib, [], Failing(lib, FileRecords(file))).1 == Failing(lib, FileRecords(file));
  }

  // ----- crashes: a file cut at any length -----

  lemma {:induction false} MsgsPrefix(lib: Library, a: seq<Rec>, b: seq<Rec>)
    requires a <= b
    ensures Msgs(lib, a) <= Msgs(lib, b)
  {
    hide Msgs;
    assert b == a + b[|a|..];
    MsgsConcat(lib, a, b[|a|..]);
  }

  /** A cut file has a prefix of the records, and a reader delivers a prefix of the messages. */
  lemma CutDeliversPrefix(lib: Library, file: bytes, n: nat)
    requires HEADER_SIZE <= n <= |file|
    ensures FileRecords(file[..n]) <= FileRecords(file)
    ensures Msgs(lib, FileRecords(file[..n])) <= Msgs(lib, FileRecords(file))
  {
    hide Records;
    assert file[..n][HEADER_SIZE..] == file[HEADER_SIZE..][..n - HEADER_SIZE];
    CutRecords(file[HEADER_SIZE..], n - HEADER_SIZE);
    MsgsPrefix(lib, FileRecords(file[..n]), FileRecords(file));
  }

  /**
   * A file whose records are all intact, cut anywhere behind its header and then recovered, is
   * accepted by Validate and still delivers exactly the messages of the complete records before the cut.
   */
  lemma CutThenRecovered(lib: Library, file: bytes, n: nat)
    requires Recoverable(file) && AllIntact(lib, FileRecords(file)) && HEADER_SIZE <= n <= |file| < U64_MAX
    requires IndexFits(file[..n])
    ensures Recoverable(file[..n])
    ensures Verdict(lib, [Some(Recovered(lib, file[..n]))], 0) == (Ok, 0)
    ensures Msgs(lib, FileRecords(Recovered(lib, file[..n]))) == Msgs(lib, FileRecords(file[..n]))
    ensures Msgs(lib, FileRecords(file[..n])) <= Msgs(lib, FileRecords(file))
  {
    hide FileRecords, Recovered, IndexFits, Verdict, Failing;
    var cut := file[..n];
    assert cut[..8] == file[..8];
    CutDeliversPrefix(lib, file, n);
    assert AllIntact(lib, FileRecords(cut));
    NoneFailing(lib, FileRecords(cut));
    RecoveredVerdict(lib, cut);
    RecoveryPreservesMessages(lib, cut);
  }
}
