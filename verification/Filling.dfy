/**
 * When a segment is closed: only when it is full. Rotation bounds segments from above; here every
 * segment boundary that no caller asked for is shown to be there because the next entry would have
 * passed a limit, with the limits written out.
 */
module Filling {
  import opened Bytes
  import opened Format
  import opened Routines
  import opened Stream
  import opened Recording
  import opened Conservation
  import opened Runs
  import opened RoundTrip
  import opened Rotation
  import opened Limits

  // ----- whole runs -----

  ghost predicate FirstData(es: seq<Entry>, k: nat) {
    k < |es| && !es[k].Control? && forall j :: 0 <= j < k ==> es[j].Control?
  }

  /** The entry for which a segment was closed opens the data of the next one. */
  ghost predicate Spills(c: Config, seg: Segment, next: Segment) {
    exists k: nat :: FirstData(next.entries, k) && Full(c, seg, next.entries[k])
  }

  ghost function Segments(L: Log): seq<Segment> { L.closed + [L.cur] }

  ghost predicate AllSpill(c: Config, segs: seq<Segment>) {
    forall i :: 0 <= i < |segs| - 1 ==> Spills(c, segs[i], segs[i + 1])
  }

  lemma SpillsOn(c: Config, seg: Segment, next: Segment, e: Entry)
    requires Spills(c, seg, next)
    ensures Spills(c, seg, next.(entries := next.entries + [e]))
  {
    hide Full;
    var k: nat :| FirstData(next.entries, k) && Full(c, seg, next.entries[k]);
    assert FirstData(next.entries + [e], k);
  }

  lemma AppendSpills(c: Config, L: Log, e: Entry)
    requires AllSpill(c, Segments(L))
    ensures AllSpill(c, Segments(Append(L, e)))
  {
    hide Spills;
    var n := |L.closed|;
    if n > 0 {
      assert Segments(L)[n - 1] == L.closed[n - 1] && Segments(L)[n] == L.cur;
      SpillsOn(c, L.closed[n - 1], L.cur, e);
    }
    forall i | 0 <= i < n
      ensures Spills(c, Segments(Append(L, e))[i], Segments(Append(L, e))[i + 1])
    {
      assert Spills(c, Segments(L)[i], Segments(L)[i + 1]);
    }
  }

  lemma {:induction false} DefsAreControl(c: Config, channels: seq<ChannelDef>)
    ensures forall k :: 0 <= k < |DefEntries(c, channels)| ==> DefEntries(c, channels)[k].Control?
    decreases |channels|
  {
    hide StoredDef;
    if channels != [] {
      DefsAreControl(c, channels[..|channels| - 1]);
    }
  }

  /** After a rotation that the entry asks for, the entry opens the new segment's data. */
  lemma RotateSpills(c: Config, L: Log, e: Entry)
    requires |c.sessionId| == 16 && AllSpill(c, Segments(L)) && !e.Control? && Full(c, L.cur, e)
    ensures AllSpill(c, Segments(Append(Rotate(c, L), e)))
  {
    hide Full, DefEntries;
    var r := Append(Rotate(c, L), e);
    DefsAreControl(c, L.channels);
    assert FirstData(r.cur.entries, |r.cur.entries| - 1);
    assert Spills(c, L.cur, r.cur);
    hide Spills, Rotate, Append;
    forall i | 0 <= i < |Segments(r)| - 1
      ensures Spills(c, Segments(r)[i], Segments(r)[i + 1])
    {
      if i < |L.closed| {
        assert Spills(c, Segments(L)[i], Segments(L)[i + 1]);
        assert Segments(r)[i] == Segments(L)[i] && Segments(r)[i + 1] == Segments(L)[i + 1];
      }
    }
  }

  lemma FlushOneSpills(c: Config, L: Log, ch: nat)
    requires Shaped(c, L) && ch < |L.pending| && AllSpill(c, Segments(L))
    ensures AllSpill(c, Segments(FlushOne(c, L, ch)))
  {
    hide Refused, Full, AllSpill, HoldsData, Fresh;
    if L.pending[ch] != [] {
      var e := PendingChunk(L, ch);
      RefusedWhenFull(c, L, e);
      AppendSpills(c, L, e);
      if Refused(c, L, e) {
        RotateSpills(c, L, e);
      }
    }
  }

  lemma {:induction false} FlushFromSpills(c: Config, L: Log, ch: nat)
    requires Shaped(c, L) && ch <= |L.pending| && AllSpill(c, Segments(L))
    ensures AllSpill(c, Segments(FlushFrom(c, L, ch)))
    decreases |L.pending| - ch
  {
    hide AllSpill, Segments, FlushOne;
    if ch < |L.pending| {
      FlushOneSpills(c, L, ch);
      FlushFromSpills(c, FlushOne(c, L, ch), ch + 1);
    }
  }

  /** All channels compressed, or none; then nothing is buffered. */
  ghost predicate OfKind(L: Log, compressed: bool) {
    && |L.pending| == |L.channels|
    && (forall i :: 0 <= i < |L.channels| ==> ((L.channels[i].compression != CODEC_NONE) <==> compressed))
    && (!compressed ==> Flushed(L, |L.pending|))
  }

  ghost predicate DefinesKind(calls: seq<Call>, compressed: bool) {
    forall call :: call in calls && call.DefineChannel? ==> ((call.config.compression != CODEC_NONE) <==> compressed)
  }

  ghost predicate NeverRotated(calls: seq<Call>) { forall call :: call in calls ==> !call.RotateNow? }

  lemma {:induction false} FlushFromKind(c: Config, L: Log, ch: nat, compressed: bool)
    requires Shaped(c, L) && ch <= |L.pending| && OfKind(L, compressed)
    ensures OfKind(FlushFrom(c, L, ch), compressed)
    decreases |L.pending| - ch
  {
    hide Refused, PendingChunk, Rotate;
    if ch < |L.pending| {
      FlushFromKind(c, FlushOne(c, L, ch), ch + 1, compressed);
    }
  }

  lemma WriteSpills(c: Config, L: Log, m: Msg, timeUp: bool, compressed: bool)
    requires Shaped(c, L) && m.ch < |L.channels| && AllSpill(c, Segments(L)) && OfKind(L, compressed)
    ensures AllSpill(c, Segments(Write(c, L, m, timeUp))) && OfKind(Write(c, L, m, timeUp), compressed)
  {
    if compressed {
      BufferedSpills(c, L, m, timeUp);
    } else {
      hide AllSpill, Full, NeedsRotation, FirstTs, EntryMsgs, ToRec, FlushFrom, Rotate;
      NothingToFlush(c, L, 0);
      AllIsFromFirst(c, L);
      MessageFirst(c, m);
      NeedsRotationIsFull(c, L.cur, Message(m));
      AppendSpills(c, L, Message(m));
      if Full(c, L.cur, Message(m)) {
        RotateSpills(c, L, Message(m));
        RotateKeepsChannels(c, L);
      }
    }
  }

  lemma RotateKeepsChannels(c: Config, L: Log)
    requires |c.sessionId| == 16
    ensures Rotate(c, L).channels == L.channels && Rotate(c, L).pending == L.pending
  {
  }

  lemma BufferedSpills(c: Config, L: Log, m: Msg, timeUp: bool)
    requires Shaped(c, L) && m.ch < |L.channels| && AllSpill(c, Segments(L)) && OfKind(L, true)
    ensures AllSpill(c, Segments(Write(c, L, m, timeUp))) && OfKind(Write(c, L, m, timeUp), true)
  {
    hide AllSpill, FlushOne, Inner;
    var L1 := L.(pending := L.pending[m.ch := L.pending[m.ch] + [m]]);
    assert Segments(L1) == Segments(L);
    FlushOneSpills(c, L1, m.ch);
  }

  lemma CallSpills(c: Config, L: Log, call: Call, compressed: bool)
    requires Shaped(c, L) && AllSpill(c, Segments(L)) && OfKind(L, compressed) && !call.RotateNow?
    requires call.DefineChannel? ==> ((call.config.compression != CODEC_NONE) <==> compressed)
    ensures AllSpill(c, Segments(After(c, L, call))) && OfKind(After(c, L, call), compressed)
  {
    hide AllSpill, FlushFrom, Write, StoredDef, StoredAnnotation, FlushAll, Named;
    AllIsFromFirst(c, L);
    FlushFromKind(c, L, 0, compressed);
    FlushFromSpills(c, L, 0);
    match call
    case DefineChannel(d) => AppendSpills(c, L, DefEntry(c, d.(id := |L.channels|)));
    case WriteMessage(m, timeUp) =>
      if m.ch < |L.channels| {
        WriteSpills(c, L, m, timeUp, compressed);
      }
    case AddAnnotation(ts, text, metadata) => AppendSpills(c, FlushAll(c, L), Annotation(ts, text, metadata));
    case FlushBuffers =>
    case RotateNow =>
  }

  lemma {:induction false} RunSpills(c: Config, L: Log, calls: seq<Call>, compressed: bool)
    requires Shaped(c, L) && AllSpill(c, Segments(L)) && OfKind(L, compressed) && NeverRotated(calls) && DefinesKind(calls, compressed)
    ensures AllSpill(c, Segments(Run(c, L, calls))) && OfKind(Run(c, L, calls), compressed)
    decreases |calls|
  {
    hide AllSpill, Segments, OfKind, After;
    if calls != [] {
      assert calls[0] in calls;
      CallSpills(c, L, calls[0], compressed);
      RunSpills(c, After(c, L, calls[0]), calls[1..], compressed);
    }
  }

  /**
   * No segment is closed early: in a session that never asks for a rotation and whose channels are
   * all compressed or all uncompressed, each segment but the last was full for the first data entry
   * of the next. Channels may be defined and annotations added anywhere.
   */
  lemma ClosedWhenFull(c: Config, calls: seq<Call>, compressed: bool, i: nat)
    requires |c.sessionId| == 16 && NeverRotated(calls) && DefinesKind(calls, compressed)
    requires i + 1 < |Closing(c, Run(c, Opened(c), calls))|
    ensures var segs := Closing(c, Run(c, Opened(c), calls)); Spills(c, segs[i], segs[i + 1])
  {
    hide Spills, Run, FlushFrom, NeverRotated, DefinesKind, Fresh;
    var L := Run(c, Opened(c), calls);
    RunSpills(c, Opened(c), calls, compressed);
    FlushFromSpills(c, L, 0);
    AllIsFromFirst(c, L);
  }

  /** With no limit set there is one segment. */
  lemma OneSegmentWithoutLimits(c: Config, calls: seq<Call>, compressed: bool)
    requires |c.sessionId| == 16 && NeverRotated(calls) && DefinesKind(calls, compressed)
    requires c.maxBytes == 0 && c.maxDurationNs == 0
    ensures |Closing(c, Run(c, Opened(c), calls))| == 1
  {
    hide Run, FlushAll, NeverRotated, DefinesKind, FileBytes, ToRec, StartsAt;
    if |Closing(c, Run(c, Opened(c), calls))| > 1 {
      ClosedWhenFull(c, calls, compressed, 0);
    }
  }

  /** The first data entry of the next segment would not even fit behind the definitions. */
  ghost predicate Outgrown(c: Config, seg: Segment, next: Segment) {
    exists k: nat :: FirstData(next.entries, k) && TooLarge(c, seg, next.entries[k])
  }

  /** A segment is left without data only where one message or chunk passes the limit on its own. */
  lemma EmptyOnlyForLarge(c: Config, calls: seq<Call>, compressed: bool, i: nat)
    requires |c.sessionId| == 16 && NeverRotated(calls) && DefinesKind(calls, compressed)
    requires i + 1 < |Closing(c, Run(c, Opened(c), calls))|
    requires !HoldsData(Closing(c, Run(c, Opened(c), calls))[i].entries)
    ensures var segs := Closing(c, Run(c, Opened(c), calls)); Outgrown(c, segs[i], segs[i + 1])
  {
    hide Run, Closing, NeverRotated, DefinesKind, TooLarge, HoldsData, StartsAt;
    var segs := Closing(c, Run(c, Opened(c), calls));
    ClosedWhenFull(c, calls, compressed, i);
    var k: nat :| FirstData(segs[i + 1].entries, k) && Full(c, segs[i], segs[i + 1].entries[k]);
    if TooLate(c, segs[i], segs[i + 1].entries[k]) {
      var start: u64 :| StartsAt(segs[i].entries, start);
      StartHolds(segs[i].entries, start);
    }
  }

  // ----- the same for messages -----

  lemma {:induction false} FirstMessage(es: seq<Entry>, k: nat)
    requires NoChunks(es) && FirstData(es, k)
    ensures k < |es| && Content(es) != [] && es[k] == Message(Content(es)[0])
    decreases |es|
  {
    hide EntryMsgs, FirstData, NoChunks;
    var n := |es| - 1;
    PrefixFirst(es, k);
    if k < n {
      FirstMessage(es[..n], k);
      assert es[..n][k] == es[k];
    } else {
      ControlsHoldNothing(es[..n]);
      MessageMsgs(es[n]);
    }
  }

  lemma PrefixFirst(es: seq<Entry>, k: nat)
    requires NoChunks(es) && FirstData(es, k)
    ensures k < |es| && NoChunks(es[..|es| - 1]) && es[k].Message? && (k < |es| - 1 ==> FirstData(es[..|es| - 1], k))
    ensures forall j :: 0 <= j < k ==> es[j].Control?
  {
    assert es[k] in es;
  }

  lemma MessageMsgs(e: Entry)
    requires e.Message?
    ensures EntryMsgs(e) == [e.m]
  {
  }

  lemma {:induction false} ControlsHoldNothing(es: seq<Entry>)
    requires forall j :: 0 <= j < |es| ==> es[j].Control?
    ensures Content(es) == []
    decreases |es|
  {
    if es != [] {
      ControlsHoldNothing(es[..|es| - 1]);
    }
  }

  /** The least timestamp among the messages. */
  ghost predicate Earliest(ms: seq<Msg>, ts: u64) {
    (exists m :: m in ms && m.ts == ts) && forall m :: m in ms ==> ts <= m.ts
  }

  lemma StartIsEarliest(es: seq<Entry>, start: u64)
    requires NoChunks(es) && StartsAt(es, start)
    ensures Earliest(Content(es), start)
  {
    hide DataRange, Content;
    StartHolds(es, start);
    RangeOfEntries(es);
    StartIsUnique(es, start, DataRange(es).startNs);
    RangeIsExact(es);
  }

  /** The message does not fit the file, or is a whole duration later than the earliest one there. */
  ghost predicate NoRoom(c: Config, seg: Segment, m: Msg) {
    || (c.maxBytes > 0 && |FileBytes(c, seg)| + 20 + |m.data| + 88 > c.maxBytes)
    || (c.maxDurationNs > 0 && exists start: u64 :: Earliest(Content(seg.entries), start) && 0 < start && start + c.maxDurationNs <= m.ts)
  }

  lemma FullHasNoRoom(c: Config, seg: Segment, m: Msg)
    requires NoChunks(seg.entries) && Full(c, seg, Message(m))
    ensures NoRoom(c, seg, m)
  {
    hide FileBytes, StartsAt, Earliest, Content, ToRec, Encode, FirstTs, EntryMsgs, NoChunks;
    MessageFirst(c, m);
    if TooLate(c, seg, Message(m)) {
      var start: u64 :| StartsAt(seg.entries, start) && 0 < start && start + c.maxDurationNs <= FirstTs(EntryMsgs(Message(m)));
      StartIsEarliest(seg.entries, start);
    }
  }

  lemma PlainKind(c: Config, defines: seq<Call>, writes: seq<Call>)
    requires |c.sessionId| == 16 && PlainRun(c, defines, writes) && NeverRotated(writes)
    ensures NeverRotated(defines + writes) && DefinesKind(defines + writes, false)
  {
    hide AllAllowed, Usable, Shaped;
  }

  lemma PlainSegments(c: Config, defines: seq<Call>, writes: seq<Call>)
    requires |c.sessionId| == 16 && PlainRun(c, defines, writes)
    ensures forall seg :: seg in Closing(c, Run(c, Opened(c), defines + writes)) ==> NoChunks(seg.entries)
  {
    hide AllAllowed, Accepted, Usable, Opened, Good, Settled, PlainRun, NoChunks, DefinesUncompressed, Untouched, WritesOnly, Adds, OnDisk;
    OpenedIsShaped(c);
    var L := Run(c, Opened(c), defines);
    AfterDefines(c, defines, writes);
    PlainWrites(c, defines, writes);
    RunKeeps(c, L, writes);
    RunKeepsOrder(c, L, writes);
    ClosingPlain(c, Run(c, L, writes));
  }

  lemma PlainWrites(c: Config, defines: seq<Call>, writes: seq<Call>)
    requires |c.sessionId| == 16 && PlainRun(c, defines, writes)
    ensures DefinesUncompressed(writes)
  {
    hide AllAllowed, Usable, Shaped;
  }

  /** In a run of uncompressed writes the first message of every further segment had no room in the one before. */
  lemma WritesFillSegments(c: Config, defines: seq<Call>, writes: seq<Call>, i: nat)
    requires |c.sessionId| == 16 && PlainRun(c, defines, writes) && NeverRotated(writes)
    requires i + 1 < |Closing(c, Run(c, Opened(c), defines + writes))|
    ensures var segs := Closing(c, Run(c, Opened(c), defines + writes));
            Content(segs[i + 1].entries) != [] && NoRoom(c, segs[i], Content(segs[i + 1].entries)[0])
  {
    hide PlainRun, Run, Closing, NeverRotated, DefinesKind, FirstData, Full, NoRoom, Content, NoChunks;
    var segs := Closing(c, Run(c, Opened(c), defines + writes));
    PlainKind(c, defines, writes);
    PlainSegments(c, defines, writes);
    ClosedWhenFull(c, defines + writes, false, i);
    assert segs[i] in segs && segs[i + 1] in segs;
    Opens(c, segs[i], segs[i + 1]);
  }

  lemma Opens(c: Config, seg: Segment, next: Segment)
    requires Spills(c, seg, next) && NoChunks(seg.entries) && NoChunks(next.entries)
    ensures Content(next.entries) != [] && NoRoom(c, seg, Content(next.entries)[0])
  {
    hide Full, NoRoom, Content, NoChunks;
    var k: nat :| FirstData(next.entries, k) && Full(c, seg, next.entries[k]);
    FirstMessage(next.entries, k);
    FullHasNoRoom(c, seg, Content(next.entries)[0]);
  }

  // ----- chunks -----

  /** What a write on a compressed channel leaves: the chunk it completes, or one message more in the buffer. */
  lemma BufferedFlushes(c: Config, L: Log, m: Msg, timeUp: bool)
    requires Shaped(c, L) && m.ch < |L.pending|
    ensures var d, ms, r := L.channels[m.ch], L.pending[m.ch] + [m], WriteBuffered(c, L, m, timeUp);
            if |Inner(ms)| >= d.chunkSize || (d.flushMs > 0 && timeUp)
            then r.pending[m.ch] == [] && |r.cur.entries| > 0 && r.cur.entries[|r.cur.entries| - 1] == Chunk(m.ch, d.compression, ms)
            else r.pending[m.ch] == ms && Segments(r) == Segments(L)
    ensures forall k :: 0 <= k < |L.pending| && k != m.ch ==> WriteBuffered(c, L, m, timeUp).pending[k] == L.pending[k]
  {
    hide Refused, Rotate, Inner;
  }

  /** The chunk has reached its channel's size, and had not before its last message. */
  ghost predicate JustFull(d: ChannelDef, ms: seq<Msg>) {
    && ms != [] && |Inner(ms)| >= d.chunkSize
    && (|ms| == 1 || |Inner(ms[..|ms| - 1])| < d.chunkSize)
  }

  ghost predicate ChunksJustFull(channels: seq<ChannelDef>, es: seq<Entry>) {
    forall k :: 0 <= k < |es| && es[k].Chunk? ==> es[k].ch < |channels| && JustFull(channels[es[k].ch], es[k].msgs)
  }

  ghost predicate AllJustFull(L: Log) {
    && |L.pending| == |L.channels| && Settled(L)
    && forall i :: 0 <= i < |Segments(L)| ==> ChunksJustFull(L.channels, Segments(L)[i].entries)
  }

  /** Only definitions, and writes whose flush interval has not elapsed. */
  ghost predicate SizeOnly(calls: seq<Call>) {
    forall call :: call in calls ==> call.DefineChannel? || (call.WriteMessage? && !call.timeUp)
  }

  lemma MoreChannels(channels: seq<ChannelDef>, more: seq<ChannelDef>, es: seq<Entry>)
    requires channels <= more && ChunksJustFull(channels, es)
    ensures ChunksJustFull(more, es)
  {
    hide JustFull;
  }

  lemma ChunkAdded(channels: seq<ChannelDef>, es: seq<Entry>, e: Entry)
    requires ChunksJustFull(channels, es)
    requires e.Chunk? ==> e.ch < |channels| && JustFull(channels[e.ch], e.msgs)
    ensures ChunksJustFull(channels, es + [e])
  {
    hide JustFull;
  }

  lemma FreshHoldsNoChunks(c: Config, L: Log)
    requires |c.sessionId| == 16
    ensures ChunksJustFull(L.channels, Rotate(c, L).cur.entries)
  {
    hide DefEntries, JustFull;
    DefsAreControl(c, L.channels);
  }

  lemma FullIsThere(d: ChannelDef, ms: seq<Msg>)
    requires JustFull(d, ms)
    ensures ms != []
  {
  }

  /** Flushing a buffer that has just reached its size adds a chunk of that size. */
  lemma FlushJustFull(c: Config, L: Log, ch: nat)
    requires Shaped(c, L) && ch < |L.pending| && JustFull(L.channels[ch], L.pending[ch])
    requires forall i :: 0 <= i < |L.pending| && i != ch ==> L.pending[i] == [] || |Inner(L.pending[i])| < L.channels[i].chunkSize
    requires forall i :: 0 <= i < |Segments(L)| ==> ChunksJustFull(L.channels, Segments(L)[i].entries)
    ensures AllJustFull(FlushOne(c, L, ch))
  {
    hide Refused, JustFull, Inner, ChunksJustFull, Fresh;
    var e := PendingChunk(L, ch);
    var L1 := if Refused(c, L, e) then Rotate(c, L) else L;
    FullIsThere(L.channels[ch], L.pending[ch]);
    assert Segments(L)[|L.closed|] == L.cur;
    FreshHoldsNoChunks(c, L);
    ChunkAdded(L.channels, L1.cur.entries, e);
    forall i | 0 <= i < |L.closed|
      ensures ChunksJustFull(L.channels, L.closed[i].entries)
    {
      assert Segments(L)[i] == L.closed[i];
    }
  }

  lemma PushedIsFull(d: ChannelDef, ms: seq<Msg>, m: Msg)
    requires |Inner(ms + [m])| >= d.chunkSize && (ms == [] || |Inner(ms)| < d.chunkSize)
    ensures JustFull(d, ms + [m])
  {
    hide Inner;
    assert (ms + [m])[..|ms|] == ms;
  }

  lemma WriteJustFull(c: Config, L: Log, m: Msg)
    requires Shaped(c, L) && m.ch < |L.channels| && L.channels[m.ch].compression != CODEC_NONE && AllJustFull(L)
    ensures AllJustFull(Write(c, L, m, false))
  {
    hide FlushOne, JustFull, Inner, ChunksJustFull;
    var ms := L.pending[m.ch] + [m];
    var L1 := L.(pending := L.pending[m.ch := ms]);
    assert Segments(L1) == Segments(L);
    if |Inner(ms)| >= L.channels[m.ch].chunkSize {
      PushedIsFull(L.channels[m.ch], L.pending[m.ch], m);
      FlushJustFull(c, L1, m.ch);
    }
  }

  lemma DefineJustFull(c: Config, L: Log, d: ChannelDef)
    requires Shaped(c, L) && AllJustFull(L)
    ensures AllJustFull(Define(c, L, d))
  {
    hide JustFull, Inner, ChunksJustFull, StoredDef;
    var L1 := Define(c, L, d);
    ChunkAdded(L.channels, L.cur.entries, DefEntry(c, d)) by {
      assert Segments(L)[|L.closed|] == L.cur;
    }
    forall i | 0 <= i < |Segments(L1)|
      ensures ChunksJustFull(L1.channels, Segments(L1)[i].entries)
    {
      if i < |L.closed| {
        assert Segments(L)[i] == L.closed[i];
      }
      MoreChannels(L.channels, L1.channels, Segments(L1)[i].entries);
    }
  }

  lemma {:induction false} RunJustFull(c: Config, L: Log, calls: seq<Call>)
    requires Shaped(c, L) && AllJustFull(L) && OfKind(L, true) && AllSpill(c, Segments(L)) && SizeOnly(calls) && DefinesKind(calls, true)
    ensures AllJustFull(Run(c, L, calls))
    decreases |calls|
  {
    hide AllJustFull, OfKind, AllSpill, Segments, Write, Define;
    if calls != [] {
      assert calls[0] in calls;
      match calls[0] {
        case DefineChannel(d) => DefineJustFull(c, L, d.(id := |L.channels|));
        case WriteMessage(m, timeUp) =>
          if m.ch < |L.channels| {
            CompressedAt(L, m.ch);
            WriteJustFull(c, L, m);
          }
      }
      CallSpills(c, L, calls[0], true);
      RunJustFull(c, After(c, L, calls[0]), calls[1..]);
    }
  }

  lemma CompressedAt(L: Log, ch: nat)
    requires OfKind(L, true) && ch < |L.channels|
    ensures L.channels[ch].compression != CODEC_NONE
  {
  }

  /** Where only size decides, every chunk on file is as small as its channel's size allows, and no buffer has reached it. */
  lemma ChunksFillUp(c: Config, calls: seq<Call>)
    requires |c.sessionId| == 16 && SizeOnly(calls) && DefinesKind(calls, true)
    ensures AllJustFull(Run(c, Opened(c), calls))
  {
    hide SizeOnly, DefinesKind, Run;
    RunJustFull(c, Opened(c), calls);
  }
}
