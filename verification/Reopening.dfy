/** Sessions written, closed and opened again: what their files say, and where annotations stand among the messages. */
module Reopening {
  import opened Bytes
  import opened Format
  import opened Routines
  import opened Stream
  import opened Recording
  import opened Conservation
  import opened Runs
  import opened RoundTrip
  import opened Summary
  import opened Opening
  import opened Chronicle
  import Writer
  import Seqs

  // ----- the records of the files are the entries written -----

  lemma {:induction false} ContentConcat(a: seq<Entry>, b: seq<Entry>)
    ensures Content(a + b) == Content(a) + Content(b)
    decreases |b|
  {
    if b == [] {
      assert a + b == a;
    } else {
      var n := |b| - 1;
      assert (a + b)[..|a + b| - 1] == a + b[..n];
      ContentConcat(a, b[..n]);
      Seqs.Regroup(Content(a), Content(b[..n]), EntryMsgs(b[n]));
    }
  }

  lemma SoundConcat(a: seq<Entry>, b: seq<Entry>)
    requires SoundEntries(a) && SoundEntries(b)
    ensures SoundEntries(a + b)
  {
    hide SoundEntry;
  }

  /** Closed segments, one after another: sound entries that hold the segments' messages and are what the files say. */
  lemma {:induction false} SealedReads(c: Config, closed: seq<Segment>)
    requires Usable(c) && SoundClosed(closed)
    ensures SessionRecords(Writer.SealedFiles(c, closed)) == Recs(c, Sealed(c, closed))
    ensures SoundEntries(Sealed(c, closed)) && Content(Sealed(c, closed)) == ClosedContent(closed)
    decreases |closed|
  {
    hide SealedFile, FileRecords, Content, Usable, SealedEntries, SoundEntries, Recs;
    if closed != [] {
      var n := |closed| - 1;
      var es := SealedEntries(c, closed[n].entries);
      SealedReads(c, closed[..n]);
      SealedReadsBack(c, closed[n]);
      SealedIsSound(c, closed[n].entries);
      SessionSnoc(Writer.SealedFiles(c, closed[..n]), SealedFile(c, closed[n]));
      RecsConcat(c, Sealed(c, closed[..n]), es);
      ContentConcat(Sealed(c, closed[..n]), es);
      SoundConcat(Sealed(c, closed[..n]), es);
    } else {
      NothingIsSound(c);
    }
  }

  lemma NothingIsSound(c: Config)
    ensures SoundEntries([]) && Content([]) == [] && Recs(c, []) == []
  {
  }

  lemma WrittenIsSound(c: Config, L: Log)
    requires Good(c, L)
    ensures SoundEntries(Written(c, L)) && Content(Written(c, L)) == OnDisk(L)
  {
    hide Sealed, Content, SoundEntry, ClosedContent, SoundChannel, SoundPending, Usable, SoundHeader;
    SealedReads(c, L.closed);
    SoundConcat(Sealed(c, L.closed), L.cur.entries);
    ContentConcat(Sealed(c, L.closed), L.cur.entries);
  }

  // ----- what the files of a session say -----

  /** The recording at the end of a run, everything flushed, and the state its files are made from. */
  lemma ClosingLog(c: Config, calls: seq<Call>)
    requires Usable(c) && AllAllowed(c, Opened(c), calls)
    ensures var L1 := Run(c, Opened(c), calls);
            var L := FlushAll(c, L1);
            && Invariant(c, L1) && Good(c, L)
            && SoundClosed(L.closed + [L.cur]) && ClosedContent(L.closed + [L.cur]) == OnDisk(L)
            && Closing(c, L1) == L.closed + [L.cur]
            && Sealed(c, L.closed + [L.cur]) == Written(c, L) + [IndexEntry(c, L.cur.entries), EndEntry(L.cur.entries)]
            && forall k: u16 :: Only(OnDisk(L), k) == Only(Accepted(c, Opened(c), calls), k)
  {
    hide Good, Held, AllAllowed, Accepted, FlushAll, Fresh, Content, SoundSegment, Standard, Inverts, Only, SealedEntries;
    var L0 := Opened(c);
    OpenedIsSettled(c);
    OpenedHolds(c);
    RunKeeps(c, L0, calls);
    var L1 := Run(c, L0, calls);
    FlushAllSettles(c, L1);
    var L := FlushAll(c, L1);
    GoodIsSound(c, L);
    var closed := L.closed + [L.cur];
    assert closed[..|closed| - 1] == L.closed;
    SealedTail(c, L.cur.entries);
    Seqs.Regroup(Sealed(c, L.closed), L.cur.entries, [IndexEntry(c, L.cur.entries), EndEntry(L.cur.entries)]);
    forall k: u16
      ensures Only(OnDisk(L), k) == Only(Accepted(c, L0, calls), k)
    {
      FlushedHolds(L, k);
      assert Held(L0, k) == [];
      assert [] + Only(Accepted(c, L0, calls), k) == Only(Accepted(c, L0, calls), k);
    }
  }

  lemma FlushedHolds(L: Log, k: u16)
    requires Flushed(L, |L.pending|)
    ensures Held(L, k) == Only(OnDisk(L), k)
  {
    hide OnDisk, Only;
    assert Buffered(L.pending, k) == [];
    assert Only(OnDisk(L), k) + [] == Only(OnDisk(L), k);
  }

  lemma DeclaresEntry(c: Config, e: Entry)
    requires SoundEntry(e) && Inverts(c.lib)
    ensures Declares(ToRec(c, e)) == |EntryMsgs(e)|
    ensures forall m :: m in EntryMsgs(e) ==> m.ch == ToRec(c, e).ch
  {
    hide Inner, U32, LE, Packed;
    if e.Chunk? {
      ChunkFields(c.lib, e.codec, e.msgs);
      PayloadSize(c.lib, e.codec, e.msgs);
    }
  }

  lemma {:induction false} DeclaredIsHeld(c: Config, es: seq<Entry>, ch: u16)
    requires SoundEntries(es) && Inverts(c.lib)
    ensures Declared(Recs(c, es), ch) == |Only(Content(es), ch)|
    decreases |es|
  {
    hide ToRec, SoundEntry, Declares;
    if es != [] {
      var n := |es| - 1;
      DeclaredIsHeld(c, es[..n], ch);
      DeclaresEntry(c, es[n]);
      OnlyConcat(Content(es[..n]), EntryMsgs(es[n]), ch);
      OnlyOf(EntryMsgs(es[n]), ToRec(c, es[n]).ch, ch);
      SaysSnoc([], Recs(c, es[..n]), ToRec(c, es[n]));
    }
  }

  lemma OpenedTells(c: Config)
    requires Usable(c)
    ensures Tells(c, Opened(c), [])
  {
    hide Header, ToRec, NoteOf, NoneStrays, StoredDef, Known, Notes, StartEntry, Recs;
    var start := StartEntry(c, 0);
    assert Written(c, Opened(c)) == [start];
    ControlsAreQuiet(c, [], [], 0);
    QuietAddsNothing(c, [], [start]);
  }

  lemma {:induction false} NamedIdsAreKnown(known: seq<ChannelDef>, rs: seq<Rec>)
    ensures forall i :: 0 <= i < |known| ==> HasId(Known(known, rs), known[i].id)
    ensures forall r :: r in rs && r.op == OP_CHANNEL_DEF && ParsedDef(r.payload).name != [] ==>
              HasId(Known(known, rs), ParsedDef(r.payload).id)
    decreases |rs|
  {
    hide ParsedDef;
    if rs != [] {
      var n := |rs| - 1;
      var before := Known(known, rs[..n]);
      NamedIdsAreKnown(known, rs[..n]);
      assert rs == rs[..n] + [rs[n]];
      var after := Known(known, rs);
      assert before <= after;
      forall id | HasId(before, id)
        ensures HasId(after, id)
      {
        var i :| 0 <= i < |before| && before[i].id == id;
        assert after[i] == before[i];
      }
      if rs[n].op == OP_CHANNEL_DEF && ParsedDef(rs[n].payload).name != [] && !HasId(before, ParsedDef(rs[n].payload).id) {
        assert after[|before|].id == ParsedDef(rs[n].payload).id;
      }
    }
  }

  lemma {:induction false} KnownAlready(known: seq<ChannelDef>, rs: seq<Rec>)
    requires forall r :: r in rs && r.op == OP_CHANNEL_DEF && ParsedDef(r.payload).name != [] ==> HasId(known, ParsedDef(r.payload).id)
    ensures Known(known, rs) == known
    decreases |rs|
  {
    hide ParsedDef, HasId;
    if rs != [] {
      KnownAlready(known, rs[..|rs| - 1]);
    }
  }

  /**
   * Opening the files of a closed session gives back, from the records alone or on top of the
   * manifest's list, all channel definitions in definition order; all annotations with label and
   * metadata in the order they were made; and on each channel the number of accepted messages.
   */
  lemma ReopenedSays(c: Config, calls: seq<Call>)
    requires Usable(c) && AllAllowed(c, Opened(c), calls) && DefinesShort(calls)
    ensures var rs, channels := SessionRecords(SessionFiles(c, calls)), Run(c, Opened(c), calls).channels;
            && Known([], rs) == channels && Known(channels, rs) == channels
            && Notes(rs) == Annotated(calls) && NoneStrays(rs)
            && forall k: u16 :: Declared(rs, k) == |Only(Accepted(c, Opened(c), calls), k)|
  {
    hide Good, AllAllowed, Accepted, FlushAll, Opened, SoundClosed, ClosedContent, Written, Sealed, Known, Notes, Declared, Only,
      IndexEntry, EndEntry, Quiet, Extends, SoundEntries, DefinesShort, Settled, NoneStrays, AllShort;
    OpenedHolds(c);
    var L1 := Run(c, Opened(c), calls);
    var L := FlushAll(c, L1);
    ClosingLog(c, calls);
    OpenedIsSettled(c);
    OpenedTells(c);
    RunTells(c, Opened(c), calls, []);
    assert [] + Annotated(calls) == Annotated(calls);
    FlushAllExtends(c, L1);
    ExtendsTells(c, L1, L, Annotated(calls));
    SealedReads(c, L.closed + [L.cur]);
    var es, ends := Written(c, L), [IndexEntry(c, L.cur.entries), EndEntry(L.cur.entries)];
    SealingTells(c, L, Annotated(calls));
    var rs := SessionRecords(SessionFiles(c, calls));
    assert rs == Recs(c, es + ends);
    NamedIdsAreKnown([], rs);
    KnownAlready(L1.channels, rs);
    InvertsOf(c);
    forall k: u16
      ensures Declared(rs, k) == |Only(Accepted(c, Opened(c), calls), k)|
    {
      DeclaredIsHeld(c, es + ends, k);
    }
  }

  lemma SealingTells(c: Config, L: Log, notes: seq<Note>)
    requires Tells(c, L, notes)
    ensures var es := Written(c, L) + [IndexEntry(c, L.cur.entries), EndEntry(L.cur.entries)];
            Known([], Recs(c, es)) == L.channels && Notes(Recs(c, es)) == notes && NoneStrays(Recs(c, es))
  {
    hide Written, IndexEntry, EndEntry, Quiet, Known, Notes, NoneStrays, AllShort;
    var ends := [IndexEntry(c, L.cur.entries), EndEntry(L.cur.entries)];
    ControlsAreQuiet(c, L.channels, L.cur.entries, 0);
    QuietAddsNothing(c, L.channels, ends);
    RecsConcat(c, Written(c, L), ends);
    SaysConcat([], Recs(c, Written(c, L)), Recs(c, ends));
    StraysConcat(Recs(c, Written(c, L)), Recs(c, ends));
    assert notes + [] == notes;
  }

  // ----- annotations are barriers -----

  lemma {:induction false} RunGrows(c: Config, L: Log, calls: seq<Call>)
    requires Shaped(c, L)
    ensures Written(c, L) <= Written(c, Run(c, L, calls))
    decreases |calls|
  {
    hide Written, After, Shaped;
    if calls != [] {
      CallGrows(c, L, calls[0]);
      RunGrows(c, After(c, L, calls[0]), calls[1..]);
    }
  }

  lemma CallGrows(c: Config, L: Log, call: Call)
    requires Shaped(c, L)
    ensures Written(c, L) <= Written(c, After(c, L, call))
  {
    hide Written, Write, RotateSegment, FlushAll, AllQuiet;
    FlushAllExtends(c, L);
    match call
    case DefineChannel(d) =>
      if !(d.name == [] || Named(L.channels, d.name) || |L.channels| >= 0xFFFE) {
        var e := DefEntry(c, d.(id := |L.channels|));
        AppendAdds(c, L, e);
        SameWritten(c, Append(L, e), After(c, L, call));
      }
    case WriteMessage(m, timeUp) =>
      if m.ch < |L.channels| {
        WriteExtends(c, L, m, timeUp);
      }
    case AddAnnotation(ts, text, metadata) => AppendAdds(c, FlushAll(c, L), Annotation(ts, text, metadata));
    case FlushBuffers =>
    case RotateNow =>
  }

  /** At an annotation everything accepted so far is on file, in channel order, before its record. */
  lemma AnnotateFlushes(c: Config, calls: seq<Call>)
    requires Usable(c) && AllAllowed(c, Opened(c), calls)
    ensures var L := FlushAll(c, Run(c, Opened(c), calls));
            && SoundEntries(Written(c, L))
            && forall k: u16 :: Only(Content(Written(c, L)), k) == Only(Accepted(c, Opened(c), calls), k)
  {
    hide Good, AllAllowed, Accepted, FlushAll, Opened, Only, Content, SoundEntries, Sealed;
    ClosingLog(c, calls);
    WrittenIsSound(c, FlushAll(c, Run(c, Opened(c), calls)));
  }

  lemma {:induction false} SealedCompresses(c: Config, closed: seq<Segment>)
    requires ChunksCompressed(c, closed)
    ensures AllCompress(c, Sealed(c, closed))
    decreases |closed|
  {
    hide Compress, Inner, IndexEntry, EndEntry;
    if closed != [] {
      var n := |closed| - 1;
      SealedCompresses(c, closed[..n]);
      SealedTail(c, closed[n].entries);
      ControlsCompress(c, closed[n].entries);
    }
  }

  lemma ControlsCompress(c: Config, es: seq<Entry>)
    ensures Compresses(c, IndexEntry(c, es)) && Compresses(c, EndEntry(es))
  {
  }

  /**
   * The annotation barrier: in the records of the session's files, the messages in front of an
   * annotation are, on every channel, exactly those whose Write had returned Ok before the call,
   * whatever rotations flushing for it set off.
   */
  lemma AnnotationBarrier(c: Config, a: seq<Call>, note: Call, b: seq<Call>)
    requires Usable(c) && note.AddAnnotation? && |note.text| <= 0xFFFF
    requires AllAllowed(c, Opened(c), a + ([note] + b))
    requires ChunksCompressed(c, Closing(c, Run(c, Opened(c), a + ([note] + b))))
    ensures var rs := SessionRecords(SessionFiles(c, a + ([note] + b)));
            exists n :: 0 <= n < |rs|
              && rs[n] == ToRec(c, Annotation(note.ts, note.text, note.metadata))
              && forall k: u16 :: Only(Msgs(c.lib, rs[..n]), k) == Only(Accepted(c, Opened(c), a), k)
  {
    hide Good, AllAllowed, Accepted, FlushAll, Opened, Only, SoundEntries, Sealed, Written, Msgs, Content, ToRec, Compresses,
      ChunksCompressed, SoundClosed, ClosedContent, IndexEntry, EndEntry, Annotation, Allowed, AllQuiet, Settled;
    var calls := a + ([note] + b);
    OpenedHolds(c);
    RunJoins(c, Opened(c), a, [note] + b);
    AnnotateFlushes(c, a);
    ClosingLog(c, calls);
    var before := Written(c, FlushAll(c, Run(c, Opened(c), a)));
    var L := FlushAll(c, Run(c, Opened(c), calls));
    var more := NoteIsWritten(c, Opened(c), a, note, b);
    var ends := [IndexEntry(c, L.cur.entries), EndEntry(L.cur.entries)];
    var e := Annotation(note.ts, note.text, note.metadata);
    BarrierRecords(c, L.closed + [L.cur], before, e, more + ends);
  }

  lemma BarrierRecords(c: Config, closed: seq<Segment>, before: seq<Entry>, e: Entry, more: seq<Entry>)
    requires Usable(c) && SoundClosed(closed) && ChunksCompressed(c, closed)
    requires SoundEntries(before) && Sealed(c, closed) == before + ([e] + more)
    ensures var rs := SessionRecords(Writer.SealedFiles(c, closed));
            |before| < |rs| && rs[|before|] == ToRec(c, e) && Msgs(c.lib, rs[..|before|]) == Content(before)
  {
    hide Good, SoundEntries, Sealed, Msgs, Content, ToRec, Compresses, ChunksCompressed, SoundClosed, ClosedContent;
    SealedReads(c, closed);
    SealedCompresses(c, closed);
    RecordAt(c, before, e, more);
    InvertsOf(c);
    RecsReadBack(c, before);
  }

  /** What was on file before an annotation, its record, and whatever came later. */
  lemma NoteIsWritten(c: Config, L: Log, a: seq<Call>, note: Call, b: seq<Call>) returns (more: seq<Entry>)
    requires Shaped(c, L) && note.AddAnnotation? && |note.text| <= 0xFFFF
    ensures var before := FlushAll(c, Run(c, L, a));
            var e := Annotation(note.ts, note.text, note.metadata);
            Written(c, FlushAll(c, Run(c, L, a + ([note] + b)))) == Written(c, before) + ([e] + more)
  {
    hide FlushAll, Written, Annotation, AllQuiet;
    RunJoins(c, L, a, [note] + b);
    var La, Lz := Run(c, L, a), Run(c, L, a + ([note] + b));
    NoteStep(c, La, note, b);
    FlushAllExtends(c, Lz);
    var w := Written(c, FlushAll(c, La));
    var e := Annotation(note.ts, note.text, note.metadata);
    var all := Written(c, FlushAll(c, Lz));
    assert w + [e] <= all;
    more := all[|w| + 1..];
    Seqs.BehindPrefix(w, e, all);
  }

  lemma NoteStep(c: Config, L: Log, note: Call, b: seq<Call>)
    requires Shaped(c, L) && note.AddAnnotation? && |note.text| <= 0xFFFF
    ensures var L1 := FlushAll(c, L);
            Written(c, L1) + [Annotation(note.ts, note.text, note.metadata)] <= Written(c, Run(c, L, [note] + b))
  {
    hide FlushAll, Written, Annotation;
    var L1 := FlushAll(c, L);
    AppendAdds(c, L1, Annotation(note.ts, note.text, note.metadata));
    assert ([note] + b)[1..] == b;
    RunGrows(c, After(c, L, note), b);
  }

  lemma RecordAt(c: Config, a: seq<Entry>, e: Entry, b: seq<Entry>)
    ensures var rs := Recs(c, a + ([e] + b)); |a| < |rs| && rs[|a|] == ToRec(c, e) && rs[..|a|] == Recs(c, a)
  {
    hide ToRec;
    RecsConcat(c, a, [e] + b);
    RecsConcat(c, [e], b);
    assert Recs(c, [e]) == [ToRec(c, e)];
  }
}
