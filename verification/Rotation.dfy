/** What rotation promises: how large and how long segments get, and what the manifest says about them. */
module Rotation {
  import opened Bytes
  import opened Format
  import opened Routines
  import opened Stream
  import opened Index
  import opened Recording
  import opened Conservation
  import opened Runs
  import opened RoundTrip
  import Writer

  // ----- sizes -----

  /** Closing adds the estimate and what a 32-bit length can say of the index. */
  lemma SealedSize(c: Config, seg: Segment)
    ensures |SealedFile(c, seg)| == |FileBytes(c, seg)| + CLOSING_SIZE + (4 + ENTRY_SIZE * |Points(c, seg.entries)|) % 0x1_0000_0000
  {
    hide Footer, LE, EncodeAll, Recs, Points, DataRange, StoredEntries;
    var es := seg.entries;
    BodyConcat(c, es, [IndexEntry(c, es)]);
    BodyConcat(c, es + [IndexEntry(c, es)], [EndEntry(es)]);
    BodyOfOne(c, IndexEntry(c, es));
    BodyOfOne(c, EndEntry(es));
  }

  /** A segment with two or more messages leaves room for what closing it was estimated to need. */
  ghost predicate Roomy(c: Config, seg: Segment) {
    c.maxBytes > 0 && |Content(seg.entries)| >= 2 ==> |FileBytes(c, seg)| + CLOSING_SIZE <= c.maxBytes
  }

  /** A segment with messages spans less than the longest duration. */
  ghost predicate Brief(c: Config, seg: Segment) {
    var r := DataRange(seg.entries);
    c.maxDurationNs > 0 && r.hasData ==> 0 < r.startNs <= r.lastNs < r.startNs + c.maxDurationNs
  }

  ghost predicate AllRoomy(c: Config, L: Log) {
    (forall i :: 0 <= i < |L.closed| ==> Roomy(c, L.closed[i])) && Roomy(c, L.cur)
  }

  ghost predicate AllBrief(c: Config, L: Log) {
    (forall i :: 0 <= i < |L.closed| ==> Brief(c, L.closed[i])) && Brief(c, L.cur)
  }

  lemma AppendRoomy(c: Config, seg: Segment, m: Msg)
    requires Roomy(c, seg)
    requires |Content(seg.entries)| == 0 || !NeedsRotation(c, seg, m.ts, ENVELOPE_SIZE + |m.data| + CLOSING_SIZE)
    ensures Roomy(c, seg.(entries := seg.entries + [Message(m)]))
  {
    hide Content, DataRange, Body, Points;
    Snoc(c, seg.entries, Message(m));
  }

  lemma AppendBrief(c: Config, seg: Segment, m: Msg, needed: nat)
    requires Brief(c, seg) && m.ts > 0 && (DataRange(seg.entries).hasData ==> DataRange(seg.entries).lastNs <= m.ts)
    requires !DataRange(seg.entries).hasData || !NeedsRotation(c, seg, m.ts, needed)
    ensures Brief(c, seg.(entries := seg.entries + [Message(m)]))
    ensures DataRange(seg.entries + [Message(m)]).hasData
    ensures DataRange(seg.entries + [Message(m)]).lastNs == m.ts
  {
    hide Content, DataRange, Body, Points;
    Snoc(c, seg.entries, Message(m));
  }

  // ----- runs of writes -----

  /** Only calls that neither define channels nor annotate. */
  ghost predicate WritesOnly(calls: seq<Call>) {
    forall call :: call in calls ==> !call.DefineChannel? && !call.AddAnnotation?
  }

  ghost predicate DefinesOnly(calls: seq<Call>) { forall call :: call in calls ==> call.DefineChannel? }

  /** Every write starts a segment, or fits the current one. */
  lemma CallIsRoomy(c: Config, L: Log, call: Call)
    requires Invariant(c, L) && Shaped(c, L) && Allowed(L, call) && Uncompressed(L) && AllRoomy(c, L)
    requires !call.DefineChannel? && !call.AddAnnotation?
    ensures AllRoomy(c, After(c, L, call))
  {
    hide Good, Settled, Roomy, NeedsRotation, Fits, Fresh, Content, DataRange, Points, ClosedContent;
    NothingPends(c, L);
    NothingToFlush(c, L, 0);
    FreshIsEmpty(c, L);
    match call
    case WriteMessage(m, timeUp) =>
      if m.ch < |L.channels| {
        if NeedsRotation(c, L.cur, m.ts, ENVELOPE_SIZE + |m.data| + CLOSING_SIZE) {
          AppendRoomy(c, Rotate(c, L).cur, m);
        } else {
          AppendRoomy(c, L.cur, m);
        }
      }
    case FlushBuffers =>
    case RotateNow =>
  }

  lemma FreshIsEmpty(c: Config, L: Log)
    requires Good(c, L)
    ensures var seg := Fresh(c, SegmentNumber(|L.closed| + 1), L.channels);
            Content(seg.entries) == [] && !DataRange(seg.entries).hasData && Roomy(c, seg) && Brief(c, seg)
  {
    FreshIsSound(c, SegmentNumber(|L.closed| + 1), L.channels);
    hide Fresh;
  }

  lemma {:induction false} RunIsRoomy(c: Config, L: Log, calls: seq<Call>)
    requires Invariant(c, L) && Shaped(c, L) && AllAllowed(c, L, calls) && Uncompressed(L) && AllRoomy(c, L) && WritesOnly(calls)
    ensures Invariant(c, Run(c, L, calls)) && Uncompressed(Run(c, L, calls)) && AllRoomy(c, Run(c, L, calls))
    decreases |calls|
  {
    hide Invariant, Uncompressed, After, Taken, Allowed, AllRoomy;
    if calls != [] {
      assert calls[0] in calls;
      CallKeeps(c, L, calls[0]);
      CallKeepsOrder(c, L, calls[0]);
      CallIsRoomy(c, L, calls[0]);
      RunIsRoomy(c, After(c, L, calls[0]), calls[1..]);
    }
  }

  /** Nothing has been written yet. */
  ghost predicate Untouched(L: Log) {
    && L.closed == [] && Content(L.cur.entries) == [] && !DataRange(L.cur.entries).hasData
  }

  lemma {:induction false} DefinesTouchNothing(c: Config, L: Log, calls: seq<Call>)
    requires Shaped(c, L) && Untouched(L) && DefinesOnly(calls)
    ensures Untouched(Run(c, L, calls))
    decreases |calls|
  {
    hide Fresh, Content, DataRange, Points, ToRec;
    if calls != [] {
      assert calls[0] in calls;
      var d := calls[0].config;
      Snoc(c, L.cur.entries, DefEntry(c, d.(id := |L.channels| % 0x1_0000)));
      DefinesTouchNothing(c, After(c, L, calls[0]), calls[1..]);
    }
  }

  /** A run that defines uncompressed channels and then only writes. */
  ghost predicate PlainRun(c: Config, defines: seq<Call>, writes: seq<Call>)
    requires |c.sessionId| == 16
  {
    && Usable(c) && Shaped(c, Opened(c)) && AllAllowed(c, Opened(c), defines + writes)
    && DefinesOnly(defines) && DefinesUncompressed(defines) && WritesOnly(writes)
  }

  lemma AfterDefines(c: Config, defines: seq<Call>, writes: seq<Call>)
    requires |c.sessionId| == 16 && PlainRun(c, defines, writes)
    ensures var L := Run(c, Opened(c), defines);
            && Invariant(c, L) && Shaped(c, L) && Uncompressed(L) && Untouched(L) && AllAllowed(c, L, writes)
            && Run(c, Opened(c), defines + writes) == Run(c, L, writes)
            && Accepted(c, Opened(c), defines + writes) == Accepted(c, Opened(c), defines) + Accepted(c, L, writes)
            && (Accepted(c, Opened(c), defines) == [])
  {
    hide AllAllowed, Accepted, Usable, Fresh, Content, DataRange, DefinesUncompressed, OnDisk, Good, Settled, Run;
    RunJoins(c, Opened(c), defines, writes);
    OpenedIsSettled(c);
    FreshHasNoChunks(c, 0, []);
    FirstIsEmpty(c);
    RunKeeps(c, Opened(c), defines);
    RunKeepsOrder(c, Opened(c), defines);
    DefinesTouchNothing(c, Opened(c), defines);
    NothingAccepted(c, Opened(c), defines);
  }

  lemma {:induction false} NothingAccepted(c: Config, L: Log, calls: seq<Call>)
    requires Shaped(c, L) && DefinesOnly(calls)
    ensures Accepted(c, L, calls) == []
    decreases |calls|
  {
    hide After, Shaped;
    if calls != [] {
      assert calls[0] in calls;
      NothingAccepted(c, After(c, L, calls[0]), calls[1..]);
    }
  }

  lemma FirstIsEmpty(c: Config)
    requires Usable(c)
    ensures Untouched(Opened(c))
  {
    FreshIsSound(c, 0, []);
    hide Fresh;
  }

  lemma ClosingPlain(c: Config, L: Log)
    requires Invariant(c, L) && Shaped(c, L) && Uncompressed(L)
    ensures Closing(c, L) == L.closed + [L.cur]
  {
    hide Good, Settled;
    NothingPends(c, L);
    NothingToFlush(c, L, 0);
  }

  /**
   * The size bound: in a run that only writes, every segment that ends up with two or more messages
   * is at most the limit, and what the estimate leaves out: 4 bytes and 18 for every seek point.
   */
  lemma SegmentsKeepToSize(c: Config, defines: seq<Call>, writes: seq<Call>, i: nat)
    requires |c.sessionId| == 16 && PlainRun(c, defines, writes) && c.maxBytes > 0
    requires i < |Closing(c, Run(c, Opened(c), defines + writes))|
    requires |Content(Closing(c, Run(c, Opened(c), defines + writes))[i].entries)| >= 2
    ensures var seg := Closing(c, Run(c, Opened(c), defines + writes))[i];
            |SealedFile(c, seg)| <= c.maxBytes + 4 + ENTRY_SIZE * |Points(c, seg.entries)|
  {
    hide AllAllowed, Accepted, Usable, Fresh, Opened, Content, DataRange, SealedFile, FileBytes, Points, Good, Settled, Uncompressed, PlainRun, Untouched, DefinesOnly;
    var L := Run(c, Opened(c), defines);
    AfterDefines(c, defines, writes);
    UntouchedIsRoomy(c, L);
    WritesOf(c, defines, writes);
    RunIsRoomy(c, L, writes);
    var L1 := Run(c, L, writes);
    ClosingPlain(c, L1);
    SealedSize(c, Closing(c, L1)[i]);
  }

  lemma WritesOf(c: Config, defines: seq<Call>, writes: seq<Call>)
    requires |c.sessionId| == 16 && PlainRun(c, defines, writes)
    ensures WritesOnly(writes)
  {
  }

  lemma UntouchedIsRoomy(c: Config, L: Log)
    requires Untouched(L)
    ensures AllRoomy(c, L) && AllBrief(c, L)
  {
    hide Content, DataRange, FileBytes;
  }

  // ----- durations -----

  /** Nothing in the current segment is later than the next message. */
  ghost predicate UpTo(L: Log, ms: seq<Msg>) {
    DataRange(L.cur.entries).hasData && ms != [] ==> DataRange(L.cur.entries).lastNs <= ms[0].ts
  }

  lemma WriteIsBrief(c: Config, L: Log, m: Msg)
    requires |c.sessionId| == 16 && |L.pending| == |L.channels| <= 0x1_0000 && m.ts > 0 && AllBrief(c, L) && FlushAll(c, L) == L
    requires var seg := Fresh(c, SegmentNumber(|L.closed| + 1), L.channels); !DataRange(seg.entries).hasData && Brief(c, seg)
    requires DataRange(L.cur.entries).hasData ==> DataRange(L.cur.entries).lastNs <= m.ts
    ensures AllBrief(c, WriteDirect(c, L, m)) && DataRange(WriteDirect(c, L, m).cur.entries).lastNs == m.ts
  {
    hide Brief, NeedsRotation, Fresh, DataRange, FlushAll;
    var needed := ENVELOPE_SIZE + |m.data| + CLOSING_SIZE;
    AppendBrief(c, if NeedsRotation(c, L.cur, m.ts, needed) then Rotate(c, L).cur else L.cur, m, needed);
  }

  lemma CallIsBrief(c: Config, L: Log, call: Call, later: seq<Msg>)
    requires Invariant(c, L) && Shaped(c, L) && Allowed(L, call) && Uncompressed(L) && AllBrief(c, L) && c.maxDurationNs > 0
    requires !call.DefineChannel? && !call.AddAnnotation?
    requires var ms := Taken(L, call) + later; UpTo(L, ms) && RisingFrom(ms)
    ensures AllBrief(c, After(c, L, call)) && UpTo(After(c, L, call), later) && RisingFrom(later)
  {
    hide Good, Settled, Brief, Fits, Fresh, Content, DataRange, WriteDirect, FlushAll, RisingFrom, Uncompressed;
    NothingPends(c, L);
    NothingToFlush(c, L, 0);
    AllFlushed(c, L);
    FreshIsEmpty(c, L);
    RisingTail(Taken(L, call), later);
    match call
    case WriteMessage(m, timeUp) =>
      if m.ch < |L.channels| {
        assert (Taken(L, call) + later)[0] == m;
        PlainChannel(L, m.ch);
        WriteIsBrief(c, L, m);
      } else {
        assert Taken(L, call) + later == later;
      }
    case FlushBuffers => assert Taken(L, call) + later == later;
    case RotateNow => assert Taken(L, call) + later == later;
  }

  lemma PlainChannel(L: Log, ch: nat)
    requires Uncompressed(L) && ch < |L.channels|
    ensures L.channels[ch].compression == CODEC_NONE
  {
  }

  lemma RisingTail(first: seq<Msg>, later: seq<Msg>)
    requires |first| <= 1 && RisingFrom(first + later)
    ensures RisingFrom(later) && (first != [] ==> first[0].ts > 0) && (first != [] && later != [] ==> first[0].ts <= later[0].ts)
  {
    var ms := first + later;
    assert forall k :: 0 <= k < |later| ==> later[k] == ms[|first| + k];
    assert first != [] ==> ms[0] == first[0];
  }

  lemma AllFlushed(c: Config, L: Log)
    requires Shaped(c, L) && FlushFrom(c, L, 0) == L
    ensures FlushAll(c, L) == L
  {
  }

  /** Positive timestamps that never decrease. */
  ghost predicate RisingFrom(ms: seq<Msg>) {
    (forall i :: 0 <= i < |ms| ==> ms[i].ts > 0) && RisingMsgs(ms)
  }

  lemma {:induction false} RunIsBrief(c: Config, L: Log, calls: seq<Call>)
    requires Invariant(c, L) && Shaped(c, L) && AllAllowed(c, L, calls) && Uncompressed(L) && AllBrief(c, L) && WritesOnly(calls)
    requires c.maxDurationNs > 0 && UpTo(L, Accepted(c, L, calls)) && RisingFrom(Accepted(c, L, calls))
    ensures Invariant(c, Run(c, L, calls)) && Uncompressed(Run(c, L, calls)) && AllBrief(c, Run(c, L, calls))
    decreases |calls|
  {
    hide Invariant, Uncompressed, After, Taken, Allowed, AllBrief, UpTo, RisingFrom;
    if calls != [] {
      assert calls[0] in calls;
      CallKeeps(c, L, calls[0]);
      CallKeepsOrder(c, L, calls[0]);
      CallIsBrief(c, L, calls[0], Accepted(c, After(c, L, calls[0]), calls[1..]));
      RunIsBrief(c, After(c, L, calls[0]), calls[1..]);
    }
  }

  /** The duration bound: with positive timestamps that never decrease, every segment spans less than the limit. */
  lemma SegmentsKeepToDuration(c: Config, defines: seq<Call>, writes: seq<Call>, i: nat)
    requires |c.sessionId| == 16 && PlainRun(c, defines, writes) && c.maxDurationNs > 0
    requires RisingFrom(Accepted(c, Opened(c), defines + writes))
    requires i < |Closing(c, Run(c, Opened(c), defines + writes))|
    ensures var r := DataRange(Closing(c, Run(c, Opened(c), defines + writes))[i].entries);
            r.hasData ==> r.lastNs < r.startNs + c.maxDurationNs
  {
    hide AllAllowed, Accepted, Usable, Fresh, Opened, Content, DataRange, Good, Settled, Uncompressed, PlainRun, DefinesOnly, RisingFrom;
    var L := Run(c, Opened(c), defines);
    AfterDefines(c, defines, writes);
    UntouchedIsRoomy(c, L);
    WritesOf(c, defines, writes);
    assert [] + Accepted(c, L, writes) == Accepted(c, L, writes);
    RunIsBrief(c, L, writes);
    var L1 := Run(c, L, writes);
    ClosingPlain(c, L1);
  }

  // ----- the manifest's segment list -----

  lemma {:induction false} RangeBounds(es: seq<Entry>)
    requires NoChunks(es)
    ensures DataRange(es).hasData <==> Content(es) != []
    ensures forall m :: m in Content(es) ==> DataRange(es).startNs <= m.ts <= DataRange(es).lastNs
    decreases |es|
  {
    if es != [] {
      assert es[|es| - 1] in es;
      RangeBounds(es[..|es| - 1]);
    }
  }

  ghost predicate Occurs(ms: seq<Msg>, ts: u64) { exists m :: m in ms && m.ts == ts }

  lemma OccursOn(a: seq<Msg>, b: seq<Msg>, ts: u64)
    requires Occurs(a, ts) || Occurs(b, ts)
    ensures Occurs(a + b, ts)
  {
    if Occurs(a, ts) {
      var m :| m in a && m.ts == ts;
      assert m in a + b;
    } else {
      var m :| m in b && m.ts == ts;
      assert m in a + b;
    }
  }

  lemma OneOccurs(m: Msg)
    ensures Occurs([m], m.ts)
  {
    assert m in [m];
  }

  lemma {:induction false} RangeOccurs(es: seq<Entry>)
    requires NoChunks(es)
    ensures DataRange(es).hasData ==> Occurs(Content(es), DataRange(es).startNs) && Occurs(Content(es), DataRange(es).lastNs)
    decreases |es|
  {
    hide Occurs;
    if es != [] {
      var n := |es| - 1;
      var before, e := es[..n], es[n];
      assert e in es;
      RangeOccurs(before);
      if e.Message? {
        OneOccurs(e.m);
        OccursOn(Content(before), [e.m], e.m.ts);
        if DataRange(before).hasData {
          OccursOn(Content(before), [e.m], DataRange(before).startNs);
          OccursOn(Content(before), [e.m], DataRange(before).lastNs);
        }
      } else {
        assert Content(es) == Content(before);
      }
    }
  }

  /** Without chunks the range is the exact least and greatest timestamp of the segment's messages. */
  lemma RangeIsExact(es: seq<Entry>)
    requires NoChunks(es)
    ensures DataRange(es).hasData <==> Content(es) != []
    ensures forall m :: m in Content(es) ==> DataRange(es).startNs <= m.ts <= DataRange(es).lastNs
    ensures Content(es) != [] ==> Occurs(Content(es), DataRange(es).startNs) && Occurs(Content(es), DataRange(es).lastNs)
  {
    hide Content, DataRange, Occurs;
    RangeBounds(es);
    RangeOccurs(es);
  }

  /** Segment i of the manifest is numbered i, with the range and the final size of closed segment i. */
  lemma {:induction false} InfosListSegments(c: Config, closed: seq<Segment>, i: nat)
    requires i < |closed| <= 0x1_0000_0000
    ensures var info := Writer.Infos(c, closed)[i];
            && info.index == i && info.size == |SealedFile(c, closed[i])|
            && info.startNs == DataRange(closed[i].entries).startNs && info.endNs == DataRange(closed[i].entries).lastNs
    decreases |closed|
  {
    hide SealedFile, DataRange;
    if i < |closed| - 1 {
      InfosListSegments(c, closed[..|closed| - 1], i);
    }
  }
}
