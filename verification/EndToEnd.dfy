/** From calls on the recorder, through files and manifest text, to what a reader of the session gets. */
module EndToEnd {
  import opened Bytes
  import opened Outcomes
  import opened Routines
  import opened Stream
  import opened Index
  import opened Recording
  import opened Conservation
  import opened Runs
  import opened RoundTrip
  import opened Summary
  import opened Opening
  import opened Seeking
  import opened Playback
  import opened Chronicle
  import opened Reopening
  import opened Recorded
  import opened Sessions
  import opened Manifest
  import opened ManifestReading
  import RecordedByChannel
  import Writer

  // ----- the manifest of a session -----

  function Entries(infos: seq<SegmentInfo>, names: nat -> bytes): (r: seq<SegmentEntry>)
    ensures |r| == |infos|
    ensures forall i :: 0 <= i < |infos| ==> r[i] == SegmentEntry(names(i), infos[i])
  {
    seq(|infos|, i requires 0 <= i < |infos| => SegmentEntry(names(i), infos[i]))
  }

  function ManifestOf(c: Config, channels: seq<ChannelDef>, infos: seq<SegmentInfo>, names: nat -> bytes): SessionManifest {
    SessionManifest(c.version, c.sessionId, c.createdAtNs, channels, Entries(infos, names))
  }

  /** The session's manifest can be printed and parsed without loss. */
  ghost predicate Printable(c: Config, calls: seq<Call>, names: nat -> bytes)
    requires |c.sessionId| == 16
  {
    var L := Run(c, Opened(c), calls);
    var m := ManifestOf(c, L.channels, Writer.Infos(c, Closing(c, L)), names);
    Searchable(m) && Legible(m)
  }

  // ----- the segments as opened -----

  /** The files, in manifest order, with their manifest entries. */
  function SourcesFor(files: seq<bytes>, segments: seq<SegmentEntry>): (r: seq<Source>)
    requires |files| == |segments|
    ensures |r| == |files|
    ensures forall i :: 0 <= i < |files| ==> r[i] == Source(Some(files[i]), segments[i].info)
  {
    seq(|files|, i requires 0 <= i < |files| => Source(Some(files[i]), segments[i].info))
  }

  lemma {:induction false} AllPresentSources(sources: seq<Source>)
    requires forall i :: 0 <= i < |sources| ==> sources[i].file.Some?
    ensures Present(sources) == sources
    decreases |sources|
  {
    if sources != [] {
      AllPresentSources(sources[..|sources| - 1]);
      assert sources == sources[..|sources| - 1] + [sources[|sources| - 1]];
    }
  }

  lemma {:induction false} FileAt(c: Config, closed: seq<Segment>, i: nat)
    requires i < |closed|
    ensures Writer.SealedFiles(c, closed)[i] == SealedFile(c, closed[i])
    ensures Writer.Infos(c, closed)[i] == Info(c, i, closed[i])
    decreases |closed|
  {
    hide SealedFile, Info;
    if i < |closed| - 1 {
      FileAt(c, closed[..|closed| - 1], i);
    }
  }

  /** Every file of a closed session opens, and its segment is found where the manifest says. */
  lemma SessionOpens(c: Config, closed: seq<Segment>, sources: seq<Source>)
    requires Usable(c) && SoundClosed(closed) && closed != [] && |sources| == |closed|
    requires forall i :: 0 <= i < |closed| ==> sources[i] == Source(Some(Writer.SealedFiles(c, closed)[i]), Writer.Infos(c, closed)[i])
    ensures OpenStatus(sources) == Ok && Present(sources) == sources
    ensures forall i :: 0 <= i < |closed| ==> sources[i] == Source(Some(SealedFile(c, closed[i])), Info(c, i, closed[i]))
  {
    hide SealedFile, Info, Usable, SoundSegment;
    forall i | 0 <= i < |closed|
      ensures sources[i] == Source(Some(SealedFile(c, closed[i])), Info(c, i, closed[i]))
      ensures Readable(SealedFile(c, closed[i]))
    {
      FileAt(c, closed, i);
      SegmentSize(c, closed[i]);
    }
    AllPresentSources(sources);
  }

  /** The reader opened on a session knows what the session's records say. */
  ghost predicate Knows(r: Reader, c: Config, calls: seq<Call>)
    requires |c.sessionId| == 16
  {
    && r.Lib == c.lib
    && r.Channels == Run(c, Opened(c), calls).channels && r.Annots == Annotated(calls) && !r.Strayed
    && forall k: u16 :: CountOn(r.ChTotalCount, k) == |Only(Accepted(c, Opened(c), calls), k)|
  }

  lemma SaysIsKnown(c: Config, calls: seq<Call>, r: Reader)
    requires Usable(c) && AllAllowed(c, Opened(c), calls) && DefinesShort(calls)
    requires r.Lib == c.lib
    requires Says(SessionRecords(SessionFiles(c, calls)), Run(c, Opened(c), calls).channels, r.Channels, r.Annots, r.ChTotalCount, r.Strayed)
    ensures Knows(r, c, calls)
  {
    hide Usable, AllAllowed, Accepted, Opened, SessionFiles, Known, Notes, Declared, DefinesShort, CountOn, Annotated, Only;
    ReopenedSays(c, calls);
  }

  /** The messages on channels below n. */
  ghost function Under(ms: seq<Msg>, n: nat): seq<Msg> {
    if ms == [] then [] else (if ms[0].ch < n then [ms[0]] else []) + Under(ms[1..], n)
  }

  lemma {:induction false} OneChannelMore(ms: seq<Msg>, n: u16)
    ensures |Under(ms, n + 1)| == |Under(ms, n)| + |Only(ms, n)|
    decreases |ms|
  {
    if ms != [] {
      OneChannelMore(ms[1..], n);
    }
  }

  lemma {:induction false} NoChannels(ms: seq<Msg>)
    ensures Under(ms, 0) == []
    decreases |ms|
  {
    if ms != [] {
      NoChannels(ms[1..]);
    }
  }

  lemma {:induction false} AllUnder(ms: seq<Msg>, n: nat)
    requires forall m :: m in ms ==> m.ch < n
    ensures Under(ms, n) == ms
    decreases |ms|
  {
    if ms != [] {
      assert ms == [ms[0]] + ms[1..];
      AllUnder(ms[1..], n);
    }
  }

  lemma {:induction false} SumIsUnder(ms: seq<Msg>, totals: seq<nat>, n: nat)
    requires n <= |totals| <= 0x1_0000 && forall k: u16 :: k < |totals| ==> totals[k] == |Only(ms, k)|
    ensures Sum(totals[..n]) == |Under(ms, n)|
    decreases n
  {
    hide Only, Under;
    if n == 0 {
      NoChannels(ms);
    } else {
      SumIsUnder(ms, totals, n - 1);
      OneChannelMore(ms, n - 1);
      assert totals[..n][..n - 1] == totals[..n - 1];
    }
  }

  /** Counts that are right on every channel add up to the number of messages. */
  lemma TotalsAddUp(ms: seq<Msg>, totals: Totals)
    requires forall k: u16 :: CountOn(totals, k) == |Only(ms, k)|
    ensures Sum(totals) == |ms|
  {
    hide Only, Under, Sum;
    forall m | m in ms
      ensures m.ch < |totals|
    {
      RecordedByChannel.OnlyHas(ms, m);
      assert CountOn(totals, m.ch) == |Only(ms, m.ch)|;
    }
    AllUnder(ms, |totals|);
    SumIsUnder(ms, totals, |totals|);
    assert totals[..|totals|] == totals;
  }

  /** The total a reopened session announces is the number of messages accepted. */
  lemma TotalOfRun(r: Reader, c: Config, calls: seq<Call>)
    requires |c.sessionId| == 16 && Knows(r, c, calls)
    ensures Sum(r.ChTotalCount) == |Accepted(c, Opened(c), calls)|
  {
    hide Sum, CountOn, Only, Opened, Accepted, Annotated, Run;
    OpenedIsShaped(c);
    TotalsAddUp(Accepted(c, Opened(c), calls), r.ChTotalCount);
  }

  /** What a run must meet for its session to be written and opened again; a single-file session has no manifest. */
  ghost predicate Replayable(c: Config, calls: seq<Call>, names: nat -> bytes) {
    && Usable(c) && AllAllowed(c, Opened(c), calls) && DefinesShort(calls)
    && (!c.singleFile ==> Printable(c, calls, names))
  }

  lemma ReplayableFacts(c: Config, calls: seq<Call>, names: nat -> bytes)
    requires Replayable(c, calls, names)
    ensures Usable(c) && |c.sessionId| == 16 && Shaped(c, Opened(c)) && AllAllowed(c, Opened(c), calls) && DefinesShort(calls)
    ensures (!c.singleFile ==> Printable(c, calls, names))
  {
    hide AllAllowed, Accepted, DefinesShort, Printable, Inverts, Standard, Fresh;
  }

  lemma {:induction false} AtLeastOne(c: Config, calls: seq<Call>)
    requires Usable(c) && AllAllowed(c, Opened(c), calls)
    ensures var closed := Closing(c, Run(c, Opened(c), calls)); closed != [] && SoundClosed(closed)
    ensures SessionFiles(c, calls) == Writer.SealedFiles(c, Closing(c, Run(c, Opened(c), calls)))
  {
    hide Opened, AllAllowed, Accepted, FlushAll, Run, Sealed, Written, OnDisk, Usable, SoundClosed, Only, IndexEntry, EndEntry;
    ClosingLog(c, calls);
  }

  // ----- a single-file session stays in its first segment -----

  lemma {:induction false} FlushStays(c: Config, L: Log, ch: nat)
    requires Usable(c) && c.singleFile && ch <= |L.pending| == |L.channels| <= 0x1_0000 && L.closed == []
    ensures FlushFrom(c, L, ch).closed == []
    decreases |L.pending| - ch
  {
    hide PendingChunk, NeedsRotation, Inverts, Standard;
    if ch < |L.pending| {
      FlushStays(c, FlushOne(c, L, ch), ch + 1);
    }
  }

  lemma CallStays(c: Config, L: Log, call: Call)
    requires Usable(c) && c.singleFile && Shaped(c, L) && L.closed == []
    ensures After(c, L, call).closed == []
  {
    hide FlushFrom, Inverts, Standard, DefEntry, Named, FileBytes, ChunkPayload;
    FlushStays(c, L, 0);
  }

  lemma {:induction false} SingleFileStays(c: Config, L: Log, calls: seq<Call>)
    requires Usable(c) && c.singleFile && Shaped(c, L) && L.closed == []
    ensures Run(c, L, calls).closed == [] && |Closing(c, Run(c, L, calls))| == 1
    decreases |calls|
  {
    hide Usable, After, FlushFrom;
    if calls == [] {
      FlushStays(c, L, 0);
    } else {
      CallStays(c, L, calls[0]);
      SingleFileStays(c, After(c, L, calls[0]), calls[1..]);
    }
  }

  // ----- recording and opening -----

  /** A reader opened on the files of closed segments. */
  ghost predicate ReadsFiles(r: Reader, c: Config, closed: seq<Segment>, files: seq<bytes>)
    reads r, set i | 0 <= i < |r.Segs| :: r.Segs[i].idx
  {
    && r.Valid() && r.CorruptCount == 0
    && FilesOf(r.Segs) == files && Opens(c, closed, r.Segs)
    && (c.singleFile ==> |closed| == 1) && (!c.singleFile ==> Reopened(c, closed, r.Segs))
    && r.Remaining() == SessionMsgs(c.lib, files) && r.CorruptAhead() == Corrupt(c.lib, SessionRecords(files))
  }

  /** A reader opened on the files of a run. */
  ghost predicate ReadsRun(r: Reader, c: Config, calls: seq<Call>)
    requires |c.sessionId| == 16
    reads r, set i | 0 <= i < |r.Segs| :: r.Segs[i].idx
  {
    hide ReadsFiles;
    Knows(r, c, calls) && ReadsFiles(r, c, Closing(c, Run(c, Opened(c), calls)), SessionFiles(c, calls))
  }

  /** Opens the one file of a single-file session directly. */
  method OpenSingle(ghost c: Config, ghost calls: seq<Call>, lib: Library, files: seq<bytes>) returns (r: Reader)
    requires c.singleFile && c.lib == lib && Usable(c) && AllAllowed(c, Opened(c), calls) && DefinesShort(calls)
    requires files == SessionFiles(c, calls)
    ensures fresh(r) && ReadsRun(r, c, calls)
  {
    hide Usable, Opened, AllAllowed, Accepted, Run, Closing, SessionFiles, DefinesShort, Reader.Valid, Reader.Remaining, Reader.CorruptAhead,
      Says, FileRecords, SessionRecords, Msgs, Corrupt, Annotated, Only, SealedFile, SoundSegment, Describes, CountOn, Knows, LastIndex;
    SessionIdSize(c);
    OpenedIsShaped(c);
    ghost var closed := Closing(c, Run(c, Opened(c), calls));
    SingleFileRun(c, calls);
    AtLeastOne(c, calls);
    FileAt(c, closed, 0);
    SegmentSize(c, closed[0]);
    StandardOf(c);
    OneSource(Source(Some(files[0]), SegmentInfo(0, 0, 0, 0)));
    var st, reader := Reader.OpenFile(lib, Some(files[0]));
    r := reader;
    assert r.Segs == [r.Segs[0]];
    OneFile(r.Segs[0]);
    assert files == [files[0]];
    DescribesIsLoaded(r.Segs[0]);
    KnowsOne(c, calls, r);
  }

  lemma SingleFileRun(c: Config, calls: seq<Call>)
    requires Usable(c) && c.singleFile && Shaped(c, Opened(c))
    ensures |Closing(c, Run(c, Opened(c), calls))| == 1
  {
    hide Usable, Fresh;
    SingleFileStays(c, Opened(c), calls);
  }

  lemma DescribesIsLoaded(seg: SegmentData)
    requires Describes(seg, FileRecords(seg.file))
    ensures Loaded(seg)
  {
  }

  /** From the records alone a reader knows as much as with the manifest. */
  lemma KnowsOne(c: Config, calls: seq<Call>, r: Reader)
    requires Usable(c) && AllAllowed(c, Opened(c), calls) && DefinesShort(calls)
    requires r.Lib == c.lib && Says(SessionRecords(SessionFiles(c, calls)), [], r.Channels, r.Annots, r.ChTotalCount, r.Strayed)
    ensures Knows(r, c, calls)
  {
    hide Usable, AllAllowed, Accepted, Opened, SessionFiles, Known, Notes, Declared, DefinesShort, CountOn, Annotated, Only, NoneStrays;
    ReopenedSays(c, calls);
  }

  /** Prints the manifest of a session, parses it, and opens the session by it. */
  method OpenByManifest(ghost c: Config, ghost calls: seq<Call>, config: Config, files: seq<bytes>, infos: seq<SegmentInfo>, channels: seq<ChannelDef>, names: nat -> bytes)
      returns (r: Reader)
    requires c == Writer.Normalised(config) && !c.singleFile && Replayable(c, calls, names) && |c.sessionId| == 16 && Shaped(c, Opened(c))
    requires files == SessionFiles(c, calls) && infos == Writer.Infos(c, Closing(c, Run(c, Opened(c), calls)))
    requires channels == Run(c, Opened(c), calls).channels
    ensures fresh(r) && ReadsRun(r, c, calls)
  {
    hide Usable, Standard, Opened, AllAllowed, Accepted, Run, Closing, SessionFiles, Printable, Replayable, DefinesShort, Reader.Valid, Reader.Remaining, Reader.CorruptAhead,
      ManifestText, ParsedManifest, Knows, Says, OpenStatus, Present, Placed, SessionRecords, Msgs, Corrupt, Legible, Searchable;
    ReplayableFacts(c, calls, names);
    PrintableIs(c, calls, names, channels, infos);
    var text := PrintManifest(ManifestOf(Writer.Normalised(config), channels, infos, names));
    ManifestReadsBack(ManifestOf(c, channels, infos, names));
    var m := ParseManifest(text);
    AtLeastOne(c, calls);
    var sources := SourcesFor(files, m.segments);
    ghost var closed := Closing(c, Run(c, Opened(c), calls));
    SessionOpens(c, closed, sources);
    StandardOf(c);
    var st, reader := Reader.OpenDirectory(config.lib, m.channels, sources);
    r := reader;
    ReopenedBy(c, closed, sources, r.Segs);
    ReopenedOpens(c, closed, r.Segs);
    OpenedFiles(c, closed, r.Segs);
    SaysIsKnown(c, calls, r);
  }

  /** Records a session and opens it again: the one file directly, or the directory by its manifest. */
  method RecordAndOpen(config: Config, calls: seq<Call>, names: nat -> bytes) returns (r: Reader, accepted: seq<Msg>)
    requires Replayable(Writer.Normalised(config), calls, names)
    ensures var c := Writer.Normalised(config);
            fresh(r) && |c.sessionId| == 16 && ReadsRun(r, c, calls) && accepted == Accepted(c, Opened(c), calls)
  {
    hide Usable, Standard, Opened, AllAllowed, Accepted, Run, Closing, SessionFiles, Printable, Replayable, DefinesShort, ReadsRun;
    ghost var c := Writer.Normalised(config);
    ReplayableFacts(c, calls, names);
    var files, infos, channels;
    files, infos, channels, accepted := Record(config, calls);
    if config.singleFile {
      r := OpenSingle(c, calls, config.lib, files);
    } else {
      r := OpenByManifest(c, calls, config, files, infos, channels, names);
    }
  }

  lemma PrintableIs(c: Config, calls: seq<Call>, names: nat -> bytes, channels: seq<ChannelDef>, infos: seq<SegmentInfo>)
    requires |c.sessionId| == 16 && Printable(c, calls, names)
    requires channels == Run(c, Opened(c), calls).channels && infos == Writer.Infos(c, Closing(c, Run(c, Opened(c), calls)))
    ensures Searchable(ManifestOf(c, channels, infos, names)) && Legible(ManifestOf(c, channels, infos, names))
  {
    hide Opened, Run, Closing, Legible, Searchable;
  }

  lemma StandardOf(c: Config)
    requires Usable(c)
    ensures Standard(c.lib)
  {
  }

  lemma ReopenedBy(c: Config, closed: seq<Segment>, sources: seq<Source>, segs: seq<SegmentData>)
    requires |segs| == |sources| == |closed|
    requires forall i :: 0 <= i < |closed| ==> sources[i] == Source(Some(SealedFile(c, closed[i])), Info(c, i, closed[i]))
    requires forall i :: 0 <= i < |segs| ==> Placed(segs[i], sources[i])
    ensures Reopened(c, closed, segs)
  {
    hide SealedFile, Info, Placed;
  }

  // ----- the promises -----

  /** No chunk of the run had to be stored raw. */
  ghost predicate NoFallback(c: Config, calls: seq<Call>) {
    |c.sessionId| == 16 && ChunksCompressed(c, Closing(c, Run(c, Opened(c), calls)))
  }

  /**
   * Record, close, reopen, replay: on every channel the messages whose Write returned Ok, with their
   * timestamps and payloads, in the order they were written; the channels in definition order; the
   * annotations with label and metadata in the order they were made; and no corrupt record.
   */
  method RecordAndReplay(config: Config, calls: seq<Call>, names: nat -> bytes)
      returns (messages: seq<Msg>, channels: seq<ChannelDef>, annotations: seq<Note>, corrupt: nat)
    requires Replayable(Writer.Normalised(config), calls, names)
    requires NoFallback(Writer.Normalised(config), calls)
    ensures var c := Writer.Normalised(config);
            && |c.sessionId| == 16
            && (forall k: u16 :: Only(messages, k) == Only(Accepted(c, Opened(c), calls), k))
            && (DefinesUncompressed(calls) ==> messages == Accepted(c, Opened(c), calls))
            && channels == Run(c, Opened(c), calls).channels && annotations == Annotated(calls)
            && corrupt == 0
  {
    hide Usable, Standard, Opened, AllAllowed, Accepted, Run, Closing, SessionFiles, Printable, Replayable, DefinesShort, DefinesUncompressed,
      Reader.Valid, Reader.Remaining, Reader.CorruptAhead, SessionMsgs, SessionRecords, Msgs, Corrupt, Only, ChunksCompressed, Opens, Reopened;
    ghost var c := Writer.Normalised(config);
    ReplayableFacts(c, calls, names);
    var r, accepted := RecordAndOpen(config, calls, names);
    channels, annotations := r.Channels, r.Annots;
    messages := Drain(r);
    corrupt := r.CorruptCount;
    Replayed(c, calls);
  }

  lemma Replayed(c: Config, calls: seq<Call>)
    requires Usable(c) && AllAllowed(c, Opened(c), calls)
    requires ChunksCompressed(c, Closing(c, Run(c, Opened(c), calls)))
    ensures forall k: u16 :: Only(SessionMsgs(c.lib, SessionFiles(c, calls)), k) == Only(Accepted(c, Opened(c), calls), k)
    ensures DefinesUncompressed(calls) ==> SessionMsgs(c.lib, SessionFiles(c, calls)) == Accepted(c, Opened(c), calls)
    ensures Corrupt(c.lib, SessionRecords(SessionFiles(c, calls))) == 0
  {
    hide Usable, Opened, AllAllowed, Accepted, Closing, SessionFiles, SessionMsgs, SessionRecords, Corrupt, Only, ChunksCompressed, DefinesUncompressed;
    FilesReadBack(c, calls);
    forall k: u16
      ensures Only(SessionMsgs(c.lib, SessionFiles(c, calls)), k) == Only(Accepted(c, Opened(c), calls), k)
    {
      ReplayedByChannel(c, calls, k);
    }
    if DefinesUncompressed(calls) {
      ReplayedInOrder(c, calls);
    }
  }

  /** What a run recorded before the segment a read seeks, and from it on. */
  ghost function RecordedBefore(c: Config, calls: seq<Call>, target: u64): seq<Msg>
    requires |c.sessionId| == 16
  {
    var closed := Closing(c, Run(c, Opened(c), calls));
    if closed == [] then [] else ClosedContent(closed[..SoughtIndex(closed, target)])
  }

  ghost function RecordedFrom(c: Config, calls: seq<Call>, target: u64): seq<Msg>
    requires |c.sessionId| == 16
  {
    var closed := Closing(c, Run(c, Opened(c), calls));
    if closed == [] then [] else ClosedContent(closed[SoughtIndex(closed, target)..])
  }

  /**
   * Record, close, reopen, read by index: for every uncompressed run in time order, with or without
   * empty segments and ties, a read with a start time visits, until the callback stops it, exactly the
   * accepted messages the options ask for from the last segment that starts at or before that time.
   * That is all of them when what was recorded before holds none.
   */
  method RecordAndRead(config: Config, calls: seq<Call>, names: nat -> bytes, o: ReadOptions, go: seq<Msg> -> bool)
      returns (st: Status, visited: seq<Msg>)
    requires Replayable(Writer.Normalised(config), calls, names) && o.startNs > 0
    requires |config.sessionId| == 16 && Indexable(Writer.Normalised(config), calls)
    ensures var c := Writer.Normalised(config);
            && |c.sessionId| == 16 && st == Ok
            && RecordedBefore(c, calls, o.startNs) + RecordedFrom(c, calls, o.startNs) == Accepted(c, Opened(c), calls)
            && visited == Visited(go, [], Filter(o, RecordedFrom(c, calls, o.startNs)))
            && ((forall m :: m in RecordedBefore(c, calls, o.startNs) ==> !Wanted(o, m)) ==>
                  visited == Visited(go, [], Filter(o, Accepted(c, Opened(c), calls))))
  {
    hide Usable, Standard, Opened, AllAllowed, Accepted, Run, Closing, SessionFiles, Printable, Replayable, DefinesShort, Indexable,
      Reader.Valid, Reader.Remaining, SessionMsgs, SessionRecords, Msgs, Reopened, Opens, Scan, Filter, Visited, SoughtRecords, Ids, ClosedContent, SeekSegment, SoughtIndex, Wanted;
    ghost var c := Writer.Normalised(config);
    ReplayableFacts(c, calls, names);
    var r, accepted := RecordAndOpen(config, calls, names);
    ghost var closed := Closing(c, Run(c, Opened(c), calls));
    OpensSorted(c, closed, r.Segs);
    RecordedRead(c, calls, r.Segs, o, go);
    SoughtEitherWay(c, calls, r.Segs, o.startNs);
    ghost var before, from := RecordedBefore(c, calls, o.startNs), RecordedFrom(c, calls, o.startNs);
    if forall m :: m in before ==> !Wanted(o, m) {
      NoneWanted(o, before);
      FilterConcat(o, before, from);
      assert [] + Filter(o, from) == Filter(o, from);
    }
    st, visited := r.Read(o, go);
  }

  lemma OpensSorted(c: Config, closed: seq<Segment>, segs: seq<SegmentData>)
    requires Opens(c, closed, segs)
    ensures forall i :: 0 <= i < |segs| ==> Sorted(segs[i].idx.Points)
  {
    hide SealedFile, Sorted, FileRecords, LastIndex;
    forall i | 0 <= i < |segs|
      ensures Sorted(segs[i].idx.Points)
    {
      assert Loaded(segs[i]);
    }
  }

  /** Opened either way, the reader seeks the segment that the recorded ranges say. */
  lemma SoughtEitherWay(c: Config, calls: seq<Call>, segs: seq<SegmentData>, target: u64)
    requires ReadyToRead(c, calls, segs) && |c.sessionId| == 16 && Shaped(c, Opened(c))
    requires var closed := Closing(c, Run(c, Opened(c), calls));
             (c.singleFile ==> |closed| == 1) && (!c.singleFile ==> Reopened(c, closed, segs))
    ensures var closed := Closing(c, Run(c, Opened(c), calls)); closed != [] && SeekSegment(segs, target) == SoughtIndex(closed, target)
  {
    hide AllAllowed, Accepted, Opened, Run, Closing, Usable, DefinesUncompressed, RisingMsgs, SealedFile, Loaded, Placed, SoundClosed, ClosedContent, NoChunks, DataRange;
    ClosingFacts(c, calls, segs);
    if !c.singleFile {
      SoughtByManifest(c, Closing(c, Run(c, Opened(c), calls)), segs, target);
    }
  }
}
