/**
 * Every segment stands on its own: it is numbered by its place, opens with every definition made so
 * far, and defines the channel of every message it holds, so that it can be read without the others.
 */
module SelfContained {
  import opened Bytes
  import opened Format
  import opened Routines
  import opened Stream
  import opened Recording
  import opened Conservation
  import opened Runs
  import opened RoundTrip
  import opened Opening
  import opened Chronicle
  import Filling
  import Limits
  import Reopening

  // ----- segments as entries -----

  /** The segment opens with its number and the first n definitions. */
  ghost predicate Begins(c: Config, channels: seq<ChannelDef>, i: nat, seg: Segment, n: nat)
    requires |c.sessionId| == 16
  {
    && n <= |channels|
    && seg.header == Header(c, SegmentNumber(i), channels[..n])
    && [StartEntry(c, SegmentNumber(i))] + DefEntries(c, channels[..n]) <= seg.entries
  }

  /** The segment defines the channels of its messages. */
  ghost predicate Provides(c: Config, channels: seq<ChannelDef>, seg: Segment) {
    forall m :: m in Content(seg.entries) ==> m.ch < |channels| && DefEntry(c, channels[m.ch]) in seg.entries
  }

  /** What the segment defines are channels of the recording. */
  ghost predicate Genuine(c: Config, channels: seq<ChannelDef>, seg: Segment) {
    forall e :: e in seg.entries && e.Control? && e.op == OP_CHANNEL_DEF ==> exists k :: 0 <= k < |channels| && e == DefEntry(c, channels[k])
  }

  ghost predicate StandsAlone(c: Config, channels: seq<ChannelDef>, i: nat, seg: Segment)
    requires |c.sessionId| == 16
  {
    (exists n: nat :: Begins(c, channels, i, seg, n)) && Provides(c, channels, seg) && Genuine(c, channels, seg)
  }

  /** The current segment defines every channel. */
  ghost predicate DefinesAll(c: Config, L: Log) {
    forall k :: 0 <= k < |L.channels| ==> DefEntry(c, L.channels[k]) in L.cur.entries
  }

  ghost predicate AllStand(c: Config, L: Log)
    requires |c.sessionId| == 16
  {
    && |L.pending| == |L.channels| <= 0xFFFE && DefinesAll(c, L)
    && (forall k :: 0 <= k < |L.pending| ==> forall m :: m in L.pending[k] ==> m.ch == k)
    && forall i :: 0 <= i < |Filling.Segments(L)| ==> StandsAlone(c, L.channels, i, Filling.Segments(L)[i])
  }

  lemma AddToSegment(c: Config, channels: seq<ChannelDef>, i: nat, seg: Segment, e: Entry)
    requires |c.sessionId| == 16 && StandsAlone(c, channels, i, seg)
    requires forall m :: m in EntryMsgs(e) ==> m.ch < |channels| && DefEntry(c, channels[m.ch]) in seg.entries
    requires e.Control? && e.op == OP_CHANNEL_DEF ==> exists k :: 0 <= k < |channels| && e == DefEntry(c, channels[k])
    ensures StandsAlone(c, channels, i, seg.(entries := seg.entries + [e]))
  {
    hide Header, StartEntry, DefEntry, DefEntries, EntryMsgs, Content, DataRange, Points, Body;
    var more := seg.(entries := seg.entries + [e]);
    var n: nat :| Begins(c, channels, i, seg, n);
    assert Begins(c, channels, i, more, n);
    Snoc(c, seg.entries, e);
  }

  lemma AddStands(c: Config, L: Log, e: Entry)
    requires |c.sessionId| == 16 && AllStand(c, L) && (e.Control? ==> e.op != OP_CHANNEL_DEF)
    requires forall m :: m in EntryMsgs(e) ==> m.ch < |L.channels|
    ensures AllStand(c, Append(L, e))
  {
    hide StandsAlone, EntryMsgs, DefEntry;
    var n := |L.closed|;
    assert Filling.Segments(L)[n] == L.cur;
    AddToSegment(c, L.channels, n, L.cur, e);
    forall i | 0 <= i < n
      ensures StandsAlone(c, L.channels, i, Filling.Segments(Append(L, e))[i])
    {
      assert Filling.Segments(L)[i] == Filling.Segments(Append(L, e))[i];
    }
  }

  lemma {:induction false} DefEntriesAre(c: Config, channels: seq<ChannelDef>)
    ensures |DefEntries(c, channels)| == |channels|
    ensures forall k :: 0 <= k < |channels| ==> DefEntries(c, channels)[k] == DefEntry(c, channels[k])
    decreases |channels|
  {
    hide DefEntry;
    if channels != [] {
      DefEntriesAre(c, channels[..|channels| - 1]);
    }
  }

  lemma FreshStands(c: Config, channels: seq<ChannelDef>, i: nat)
    requires Usable(c) && |c.sessionId| == 16 && |channels| <= 0xFFFE && forall k :: 0 <= k < |channels| ==> SoundChannel(channels[k], k)
    ensures var seg := Fresh(c, SegmentNumber(i), channels);
            StandsAlone(c, channels, i, seg) && forall k :: 0 <= k < |channels| ==> DefEntry(c, channels[k]) in seg.entries
  {
    FreshIsSound(c, SegmentNumber(i), channels);
    FreshDefines(c, channels, SegmentNumber(i));
    hide Content, DefEntries, SoundEntries, DefEntry, StartEntry, Header, Usable;
    assert channels[..|channels|] == channels;
    assert Begins(c, channels, i, Fresh(c, SegmentNumber(i), channels), |channels|);
  }

  lemma FreshDefines(c: Config, channels: seq<ChannelDef>, number: u32)
    requires |c.sessionId| == 16
    ensures var seg := Fresh(c, number, channels);
            (forall k :: 0 <= k < |channels| ==> DefEntry(c, channels[k]) in seg.entries) && Genuine(c, channels, seg)
  {
    DefEntriesAre(c, channels);
    hide Header, DefEntries, StoredDef;
    var seg := Fresh(c, number, channels);
    forall k | 0 <= k < |channels|
      ensures DefEntry(c, channels[k]) in seg.entries
    {
      assert seg.entries[k + 1] == DefEntry(c, channels[k]);
    }
  }

  lemma RotateStands(c: Config, L: Log)
    requires Good(c, L) && |c.sessionId| == 16 && AllStand(c, L)
    ensures AllStand(c, Rotate(c, L))
  {
    hide StandsAlone, Fresh, DefEntry, SoundSegment, SoundPending;
    FreshStands(c, L.channels, |L.closed| + 1);
    var r := Rotate(c, L);
    forall i | 0 <= i < |Filling.Segments(r)|
      ensures StandsAlone(c, r.channels, i, Filling.Segments(r)[i])
    {
      if i <= |L.closed| {
        assert Filling.Segments(L)[i] == Filling.Segments(r)[i];
      }
    }
  }

  lemma FlushOneStands(c: Config, L: Log, ch: nat)
    requires Good(c, L) && |c.sessionId| == 16 && AllStand(c, L) && ch < |L.pending|
    ensures AllStand(c, FlushOne(c, L, ch))
  {
    hide StandsAlone, Refused, Rotate, DefinesAll, Good;
    if L.pending[ch] != [] {
      var e := PendingChunk(L, ch);
      RotateStands(c, L);
      Filling.RotateKeepsChannels(c, L);
      var L1 := if Refused(c, L, e) then Rotate(c, L) else L;
      AddStands(c, L1, e);
      Emptied(c, Append(L1, e), L.pending, ch);
    }
  }

  lemma Emptied(c: Config, L: Log, pending: seq<seq<Msg>>, ch: nat)
    requires |c.sessionId| == 16 && AllStand(c, L) && ch < |pending| && L.pending == pending
    ensures AllStand(c, L.(pending := pending[ch := []]))
  {
    hide StandsAlone;
    assert Filling.Segments(L.(pending := pending[ch := []])) == Filling.Segments(L);
  }

  lemma {:induction false} FlushFromStands(c: Config, L: Log, ch: nat)
    requires Good(c, L) && |c.sessionId| == 16 && AllStand(c, L) && ch <= |L.pending|
    ensures AllStand(c, FlushFrom(c, L, ch))
    decreases |L.pending| - ch
  {
    hide AllStand, Good, FlushOne;
    SessionOf(c, L);
    if ch < |L.pending| {
      FlushOneStands(c, L, ch);
      FlushOneKeeps(c, L, ch);
      FlushFromStands(c, FlushOne(c, L, ch), ch + 1);
    }
  }

  lemma FlushAllStands(c: Config, L: Log)
    requires Good(c, L) && |c.sessionId| == 16 && AllStand(c, L)
    ensures AllStand(c, FlushAll(c, L)) && Good(c, FlushAll(c, L)) && FlushAll(c, L).channels == L.channels
  {
    hide AllStand, Good, FlushFrom, Weight, Held;
    SessionOf(c, L);
    FlushFromStands(c, L, 0);
    FlushAllKeeps(c, L);
    Limits.AllIsFromFirst(c, L);
  }

  lemma DirectStands(c: Config, L: Log, m: Msg)
    requires Good(c, L) && |c.sessionId| == 16 && AllStand(c, L) && m.ch < |L.channels|
    ensures AllStand(c, WriteDirect(c, L, m))
  {
    hide AllStand, Good, NeedsRotation, FlushAll, Rotate;
    SessionOf(c, L);
    FlushAllStands(c, L);
    RotateStands(c, FlushAll(c, L));
    Filling.RotateKeepsChannels(c, FlushAll(c, L));
    var L1 := if NeedsRotation(c, L.cur, m.ts, ENVELOPE_SIZE + |m.data| + CLOSING_SIZE) then RotateSegment(c, L) else L;
    AddStands(c, L1, Message(m));
  }

  lemma PushedStands(c: Config, L: Log, m: Msg)
    requires |c.sessionId| == 16 && AllStand(c, L) && m.ch < |L.channels|
    ensures AllStand(c, Pushed(L, m))
  {
    hide StandsAlone;
    assert Filling.Segments(Pushed(L, m)) == Filling.Segments(L);
  }

  lemma BufferedStands(c: Config, L: Log, m: Msg, timeUp: bool)
    requires Invariant(c, L) && |c.sessionId| == 16 && AllStand(c, L) && m.ch < |L.channels| && Fits(L, m)
    requires L.channels[m.ch].compression != CODEC_NONE
    ensures AllStand(c, WriteBuffered(c, L, m, timeUp))
  {
    hide AllStand, Good, FlushOne, Inner;
    SessionOf(c, L);
    PushedStands(c, L, m);
    PushIsGood(c, L, m);
    FlushOneStands(c, Pushed(L, m), m.ch);
  }

  lemma DefinedSegment(c: Config, channels: seq<ChannelDef>, d: ChannelDef, i: nat, seg: Segment)
    requires |c.sessionId| == 16 && StandsAlone(c, channels, i, seg)
    ensures StandsAlone(c, channels + [d], i, seg)
  {
    hide Header, StartEntry, DefEntry, DefEntries, Content;
    var n: nat :| Begins(c, channels, i, seg, n);
    assert (channels + [d])[..n] == channels[..n];
    assert Begins(c, channels + [d], i, seg, n);
    forall e | e in seg.entries && e.Control? && e.op == OP_CHANNEL_DEF
      ensures exists k :: 0 <= k < |channels + [d]| && e == DefEntry(c, (channels + [d])[k])
    {
      var k :| 0 <= k < |channels| && e == DefEntry(c, channels[k]);
      assert (channels + [d])[k] == channels[k];
    }
  }

  lemma DefineStands(c: Config, L: Log, d: ChannelDef)
    requires |c.sessionId| == 16 && AllStand(c, L) && |L.channels| < 0xFFFE
    ensures AllStand(c, Define(c, L, d))
  {
    hide StandsAlone, StoredDef;
    var r := Define(c, L, d);
    var n := |L.closed|;
    assert Filling.Segments(L)[n] == L.cur;
    forall i | 0 <= i <= n
      ensures StandsAlone(c, r.channels, i, Filling.Segments(r)[i])
    {
      DefinedSegment(c, L.channels, d, i, Filling.Segments(L)[i]);
      if i == n {
        assert r.channels[|L.channels|] == d;
        AddToSegment(c, r.channels, n, L.cur, DefEntry(c, d));
      }
    }
  }

  lemma CallStands(c: Config, L: Log, call: Call)
    requires Invariant(c, L) && Shaped(c, L) && Allowed(L, call) && AllStand(c, L)
    ensures AllStand(c, After(c, L, call))
  {
    hide AllStand, Good, Settled, Fits, StoredDef, StoredAnnotation, FlushAll, Rotate, WriteDirect, WriteBuffered, Define, Named;
    FlushAllStands(c, L);
    match call
    case DefineChannel(d) =>
      if |L.channels| < 0xFFFE {
        DefineStands(c, L, d.(id := |L.channels|));
      }
    case WriteMessage(m, timeUp) =>
      if m.ch < |L.channels| {
        if L.channels[m.ch].compression == CODEC_NONE {
          DirectStands(c, L, m);
        } else {
          BufferedStands(c, L, m, timeUp);
        }
      }
    case AddAnnotation(ts, text, metadata) => AddStands(c, FlushAll(c, L), Annotation(ts, text, metadata));
    case FlushBuffers =>
    case RotateNow => RotateStands(c, FlushAll(c, L));
  }

  lemma {:induction false} RunStands(c: Config, L: Log, calls: seq<Call>)
    requires Invariant(c, L) && Shaped(c, L) && AllAllowed(c, L, calls) && AllStand(c, L)
    ensures AllStand(c, Run(c, L, calls)) && Invariant(c, Run(c, L, calls))
    decreases |calls|
  {
    hide AllStand, Invariant, After, Allowed, Adds;
    if calls != [] {
      CallKeeps(c, L, calls[0]);
      CallStands(c, L, calls[0]);
      RunStands(c, After(c, L, calls[0]), calls[1..]);
    }
  }

  lemma OpenedStands(c: Config)
    requires Usable(c) && |c.sessionId| == 16
    ensures AllStand(c, Opened(c))
  {
    FreshStands(c, [], 0);
    hide Fresh, StandsAlone;
  }

  /**
   * For every run: segment i of the closed session carries number i, opens with the definitions made
   * before it, and defines the channel of every message in it.
   */
  lemma SegmentsStandAlone(c: Config, calls: seq<Call>, i: nat)
    requires Usable(c) && |c.sessionId| == 16 && AllAllowed(c, Opened(c), calls)
    requires i < |Closing(c, Run(c, Opened(c), calls))|
    ensures StandsAlone(c, Run(c, Opened(c), calls).channels, i, Closing(c, Run(c, Opened(c), calls))[i])
  {
    hide Opened, Run, FlushAll, AllAllowed, Good, Settled, StandsAlone, DefinesAll, Usable;
    OpenedIsSettled(c);
    OpenedIsShaped(c);
    OpenedStands(c);
    RunStands(c, Opened(c), calls);
    FlushAllStands(c, Run(c, Opened(c), calls));
    var L := FlushAll(c, Run(c, Opened(c), calls));
    assert Filling.Segments(L)[i] == Closing(c, Run(c, Opened(c), calls))[i];
  }

  // ----- read on its own -----

  /** What the records define are these channels. */
  ghost predicate Tell(rs: seq<Rec>, channels: seq<ChannelDef>) {
    forall r :: r in rs && r.op == OP_CHANNEL_DEF ==> ParsedDef(r.payload) in channels
  }

  lemma {:induction false} KnownAreTold(rs: seq<Rec>, channels: seq<ChannelDef>)
    requires Tell(rs, channels)
    requires forall i :: 0 <= i < |channels| ==> channels[i].id == i && channels[i].name != []
    ensures forall d :: d in Known([], rs) ==> d in channels
    ensures forall r :: r in rs && r.op == OP_CHANNEL_DEF ==> ParsedDef(r.payload) in Known([], rs)
    decreases |rs|
  {
    hide ParsedDef;
    if rs != [] {
      var n := |rs| - 1;
      var before, r := rs[..n], rs[n];
      assert rs == before + [r];
      KnownAreTold(before, channels);
      if r.op == OP_CHANNEL_DEF && HasId(Known([], before), ParsedDef(r.payload).id) {
        var k :| 0 <= k < |Known([], before)| && Known([], before)[k].id == ParsedDef(r.payload).id;
        assert Known([], before)[k] in channels && ParsedDef(r.payload) in channels;
      }
    }
  }

  lemma DefAsRecord(c: Config, d: ChannelDef)
    requires ShortNames(d) && |StoredDef(d)| < 0x1_0000_0000
    ensures ToRec(c, DefEntry(c, d)).op == OP_CHANNEL_DEF && ParsedDef(ToRec(c, DefEntry(c, d)).payload) == d
  {
    hide StoredDef, ParsedDef;
    DefReadsBack(d);
  }

  lemma {:induction false} InRecs(c: Config, es: seq<Entry>)
    ensures forall e :: e in es ==> ToRec(c, e) in Recs(c, es)
    ensures forall r :: r in Recs(c, es) ==> exists e :: e in es && r == ToRec(c, e)
    decreases |es|
  {
    hide ToRec;
    if es != [] {
      var n := |es| - 1;
      assert es == es[..n] + [es[n]];
      InRecs(c, es[..n]);
      forall r | r in Recs(c, es)
        ensures exists e :: e in es && r == ToRec(c, e)
      {
        if r in Recs(c, es[..n]) {
          var e :| e in es[..n] && r == ToRec(c, e);
          assert e in es;
        } else {
          assert es[n] in es;
        }
      }
    }
  }

  lemma OnlyControlsDefine(c: Config, e: Entry)
    ensures ToRec(c, e).op == OP_CHANNEL_DEF ==> e.Control? && e.op == OP_CHANNEL_DEF
  {
  }

  lemma EndsDefineNothing(c: Config, es: seq<Entry>)
    ensures IndexEntry(c, es).op == OP_INDEX && EndEntry(es).op == OP_SESSION_END
  {
  }

  lemma SegmentTell(c: Config, channels: seq<ChannelDef>, seg: Segment)
    requires Genuine(c, channels, seg) && AllShort(channels)
    ensures Tell(Recs(c, SealedEntries(c, seg.entries)), channels)
  {
    hide ToRec, DefEntry, Recs, IndexEntry, EndEntry, StoredDef, ShortNames, ParsedDef;
    var es := SealedEntries(c, seg.entries);
    InRecs(c, es);
    EndsDefineNothing(c, seg.entries);
    forall r | r in Recs(c, es) && r.op == OP_CHANNEL_DEF
      ensures ParsedDef(r.payload) in channels
    {
      var e :| e in es && r == ToRec(c, e);
      OnlyControlsDefine(c, e);
      assert e in seg.entries;
      var k :| 0 <= k < |channels| && e == DefEntry(c, channels[k]);
      DefAsRecord(c, channels[k]);
    }
  }

  /** Reading one segment file without the others gives the definition of every message's channel. */
  lemma SegmentKnowsChannels(c: Config, channels: seq<ChannelDef>, i: nat, seg: Segment)
    requires Usable(c) && |c.sessionId| == 16 && SoundSegment(seg) && AllCompress(c, seg.entries)
    requires StandsAlone(c, channels, i, seg) && AllShort(channels)
    requires forall k :: 0 <= k < |channels| ==> channels[k].id == k && channels[k].name != []
    ensures var rs := FileRecords(SealedFile(c, seg));
            forall m :: m in Msgs(c.lib, rs) ==> m.ch < |channels| && channels[m.ch].id == m.ch && channels[m.ch] in Known([], rs)
  {
    hide Usable, SoundEntries, SoundHeader, AllCompress, SealedFile, FileRecords, Known, Recs, Content, DefEntry, ToRec, IndexEntry,
      EndEntry, Msgs, ShortNames, StoredDef, ParsedDef;
    var es := SealedEntries(c, seg.entries);
    SealedReadsBack(c, seg);
    SegmentMsgs(c, seg);
    SegmentTell(c, channels, seg);
    KnownAreTold(Recs(c, es), channels);
    InRecs(c, es);
    forall m | m in Content(seg.entries)
      ensures m.ch < |channels| && channels[m.ch] in Known([], Recs(c, es))
    {
      assert DefEntry(c, channels[m.ch]) in es;
      DefAsRecord(c, channels[m.ch]);
    }
  }

  lemma {:induction false} KnownAreNamed(rs: seq<Rec>)
    ensures forall d :: d in Known([], rs) ==> d.name != []
    decreases |rs|
  {
    hide ParsedDef, HasId;
    if rs != [] {
      KnownAreNamed(rs[..|rs| - 1]);
    }
  }

  lemma RunIsShort(c: Config, calls: seq<Call>)
    requires Usable(c) && |c.sessionId| == 16 && AllAllowed(c, Opened(c), calls) && DefinesShort(calls)
    ensures var channels := Run(c, Opened(c), calls).channels;
            AllShort(channels) && forall k :: 0 <= k < |channels| ==> channels[k].id == k && channels[k].name != []
  {
    hide Usable, Opened, AllAllowed, Good, Settled, DefinesShort, AllShort, Known, Notes, Written, Recs, Run, NoneStrays, Annotated, Adds;
    OpenedIsSettled(c);
    OpenedIsShaped(c);
    Reopening.OpenedTells(c);
    RunTells(c, Opened(c), calls, []);
    var L := Run(c, Opened(c), calls);
    KnownAreNamed(Recs(c, Written(c, L)));
    RunKeeps(c, Opened(c), calls);
    forall k | 0 <= k < |L.channels|
      ensures L.channels[k].id == k && L.channels[k].name != []
    {
      ChannelFacts(c, L, k);
      assert L.channels[k] in L.channels;
    }
  }

  /** So it is for every segment of every run whose chunks are compressed. */
  lemma RecordedSegmentsKnow(c: Config, calls: seq<Call>, i: nat)
    requires Usable(c) && |c.sessionId| == 16 && AllAllowed(c, Opened(c), calls) && DefinesShort(calls)
    requires ChunksCompressed(c, Closing(c, Run(c, Opened(c), calls))) && i < |Closing(c, Run(c, Opened(c), calls))|
    ensures var channels := Run(c, Opened(c), calls).channels;
            var rs := FileRecords(SealedFile(c, Closing(c, Run(c, Opened(c), calls))[i]));
            forall m :: m in Msgs(c.lib, rs) ==> m.ch < |channels| && channels[m.ch].id == m.ch && channels[m.ch] in Known([], rs)
  {
    hide Usable, Opened, Run, Closing, AllAllowed, Good, Settled, StandsAlone, DefinesShort, SoundSegment, AllCompress, SealedFile,
      FileRecords, Msgs, Known, Tells, Accepted;
    OpenedIsSettled(c);
    OpenedIsShaped(c);
    RunKeeps(c, Opened(c), calls);
    ClosingIsSound(c, calls);
    SegmentsStandAlone(c, calls, i);
    RunIsShort(c, calls);
    SegmentKnowsChannels(c, Run(c, Opened(c), calls).channels, i, Closing(c, Run(c, Opened(c), calls))[i]);
  }
}
