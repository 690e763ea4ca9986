/** What holds of every session the recorder closes, beyond the messages themselves. */
module Guarantees {
  import opened Bytes
  import opened Format
  import opened Outcomes
  import opened Routines
  import opened Stream
  import opened Recording
  import opened Conservation
  import opened Runs
  import opened RoundTrip
  import opened Validation
  import Writer

  function AllPresent(files: seq<bytes>): seq<Option<bytes>> {
    if files == [] then [] else [Some(files[0])] + AllPresent(files[1..])
  }

  lemma {:induction false} AllClosedVerdict(lib: Library, files: seq<bytes>, corrupt: nat)
    requires forall f :: f in files ==> Closed(lib, f) && Faults(lib, f) == 0
    ensures Verdict(lib, AllPresent(files), corrupt) == (if corrupt == 0 then Ok else ErrorCorrupted, corrupt)
    decreases |files|
  {
    hide Closed, Faults;
    if files != [] {
      assert AllPresent(files)[1..] == AllPresent(files[1..]);
      assert files == [files[0]] + files[1..];
      AllClosedVerdict(lib, files[1..], corrupt);
    }
  }

  /** One closed segment has a footer that counts its records, and none of them fails. */
  lemma SealedIsFaultless(c: Config, seg: Segment)
    requires Usable(c) && SoundSegment(seg)
    requires |SealedFile(c, seg)| <= U64_MAX
    ensures Closed(c.lib, SealedFile(c, seg)) && Faults(c.lib, SealedFile(c, seg)) == 0
  {
    hide Footer, Closed, Faults, EncodeAll, Recs, SealedEntries, Content, SoundEntries, AllFramed, AllIntact, Usable, FileRecords;
    var es := SealedEntries(c, seg.entries);
    var rs := Recs(c, es);
    InvertsOf(c);
    SealedIsSound(c, seg.entries);
    RecsAreIntact(c, es);
    CountBound(rs);
    SealedCount(c, seg.entries);
    FooteredFile(c.lib, seg.header, rs, |FileBytes(c, seg)|);
    NoneFailing(c.lib, rs);
  }

  lemma SealedCount(c: Config, es: seq<Entry>)
    ensures |Recs(c, SealedEntries(c, es))| == |es| + 2
  {
  }

  lemma {:induction false} SealedFilesFaultless(c: Config, closed: seq<Segment>)
    requires Usable(c) && SoundClosed(closed)
    requires forall f :: f in Writer.SealedFiles(c, closed) ==> |f| <= U64_MAX
    ensures forall f :: f in Writer.SealedFiles(c, closed) ==> Closed(c.lib, f) && Faults(c.lib, f) == 0
    decreases |closed|
  {
    hide SealedFile, Closed, Faults, Content, Usable, SoundSegment;
    if closed != [] {
      var n := |closed| - 1;
      var f := SealedFile(c, closed[n]);
      assert f in Writer.SealedFiles(c, closed);
      assert forall g :: g in Writer.SealedFiles(c, closed[..n]) ==> g in Writer.SealedFiles(c, closed);
      SealedFilesFaultless(c, closed[..n]);
      SealedIsFaultless(c, closed[n]);
    }
  }

  /** Validate accepts every session the recorder closes, with no corrupt record. */
  lemma ClosedSessionsValidate(c: Config, calls: seq<Call>)
    requires Usable(c) && AllAllowed(c, Opened(c), calls)
    requires forall f :: f in SessionFiles(c, calls) ==> |f| <= U64_MAX
    ensures Verdict(c.lib, AllPresent(SessionFiles(c, calls)), 0) == (Ok, 0)
  {
    hide Good, Held, AllAllowed, Accepted, FlushAll, Fresh, Closed, Faults, SealedFile, Content, SoundSegment, Standard, Inverts;
    OpenedIsSettled(c);
    OpenedHolds(c);
    RunKeeps(c, Opened(c), calls);
    var L1 := Run(c, Opened(c), calls);
    FlushAllSettles(c, L1);
    var L := FlushAll(c, L1);
    GoodIsSound(c, L);
    var closed := L.closed + [L.cur];
    assert closed[..|closed| - 1] == L.closed;
    SealedFilesFaultless(c, closed);
    AllClosedVerdict(c.lib, SessionFiles(c, calls), 0);
  }

  // ----- segments cut short -----

  /**
   * A recorded segment that lost its end is accepted only by accident: exactly when the last 32 bytes
   * that are left happen to be a footer with the right checksum that counts the records still complete.
   */
  lemma CutVerdict(c: Config, seg: Segment, n: nat)
    requires Usable(c) && SoundSegment(seg) && n < |SealedFile(c, seg)|
    ensures var cut := SealedFile(c, seg)[..n];
            Verdict(c.lib, [Some(cut)], 0).0 == Ok <==>
              n >= 96 && FooterIntact(c.lib, cut[n - 32..]) && U64(cut[n - 16..n - 8]) == |FileRecords(cut)|
  {
    hide SealedFile, SoundEntries, Usable, FileRecords, Verdict, Closed, Intact, U64, U32;
    var file := SealedFile(c, seg);
    var cut := file[..n];
    VerdictIsOk(c.lib, [Some(cut)]);
    assert [Some(cut)][0].value == cut;
    ClosedIsWellEnded(c.lib, cut);
    SealedReadsBack(c, seg);
    StartsWithMagic(c, seg);
    if n >= 96 {
      CutOfIntact(c.lib, file, n);
      assert cut[..8] == file[..8];
      ClosedIs(c.lib, cut);
    }
  }

  lemma ClosedIs(lib: Library, file: bytes)
    requires |file| >= 96 && file[..8] == MAGIC
    ensures Closed(lib, file) <==> FooterIntact(lib, file[|file| - 32..])
  {
    hide U32;
  }

  lemma StartsWithMagic(c: Config, seg: Segment)
    requires SoundSegment(seg)
    ensures |SealedFile(c, seg)| >= 96 && SealedFile(c, seg)[..8] == MAGIC
  {
    hide Footer, SealedEntries, Body, SoundEntries;
    assert seg.header[..8] == SealedFile(c, seg)[..8];
  }

  /** In any session a segment cut short is refused, but for that accident. */
  lemma CutSessionVerdict(c: Config, seg: Segment, n: nat, files: seq<Option<bytes>>, f: nat)
    requires Usable(c) && SoundSegment(seg) && n < |SealedFile(c, seg)| && f < |files| && files[f] == Some(SealedFile(c, seg)[..n])
    requires n >= 96 ==> !FooterIntact(c.lib, SealedFile(c, seg)[..n][n - 32..])
    ensures Verdict(c.lib, files, 0).0 != Ok
  {
    hide SealedFile, SoundSegment, Usable, FileRecords, Verdict, Intact, U64, U32;
    var cut := SealedFile(c, seg)[..n];
    VerdictIsOk(c.lib, files);
    ClosedIsWellEnded(c.lib, cut);
  }

  lemma CutOfIntact(lib: Library, file: bytes, n: nat)
    requires HEADER_SIZE <= n <= |file| && AllIntact(lib, FileRecords(file))
    ensures AllIntact(lib, FileRecords(file[..n]))
  {
    hide Records, Intact;
    assert file[..n][HEADER_SIZE..] == file[HEADER_SIZE..][..n - HEADER_SIZE];
    CutRecords(file[HEADER_SIZE..], n - HEADER_SIZE);
  }
}
