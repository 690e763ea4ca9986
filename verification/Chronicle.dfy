/** The order of everything a session writes: annotations as barriers, and what reopening the files reconstructs. */
module Chronicle {
  import opened Bytes
  import opened Format
  import opened Routines
  import opened Stream
  import opened Recording
  import opened Conservation
  import opened Runs
  import opened Opening
  import Seqs

  // ----- all entries in file order -----

  function Sealed(c: Config, closed: seq<Segment>): seq<Entry> {
    if closed == [] then [] else Sealed(c, closed[..|closed| - 1]) + SealedEntries(c, closed[|closed| - 1].entries)
  }

  /** What the files hold: closed segments as sealed, then the current segment. */
  function Written(c: Config, L: Log): seq<Entry> { Sealed(c, L.closed) + L.cur.entries }

  /** An entry that opening a session learns nothing new from. */
  ghost predicate Quiet(c: Config, channels: seq<ChannelDef>, e: Entry) {
    match e
    case Message(_) => true
    case Chunk(_, _, _) => true
    case Control(op, _, _, _) =>
      || op == OP_SESSION_START || op == OP_INDEX || op == OP_SESSION_END
      || exists i :: 0 <= i < |channels| && e == DefEntry(c, channels[i])
  }

  ghost predicate AllQuiet(c: Config, channels: seq<ChannelDef>, es: seq<Entry>) {
    forall i :: 0 <= i < |es| ==> Quiet(c, channels, es[i])
  }

  /** Nothing written is rewritten, and only quiet entries are added. */
  ghost predicate Extends(c: Config, L: Log, L': Log) {
    && L'.channels == L.channels
    && Written(c, L) <= Written(c, L')
    && AllQuiet(c, L.channels, Written(c, L')[|Written(c, L)|..])
  }

  lemma ExtendsBy(c: Config, L: Log, L': Log, more: seq<Entry>)
    requires L'.channels == L.channels && Written(c, L') == Written(c, L) + more && AllQuiet(c, L.channels, more)
    ensures Extends(c, L, L')
  {
    hide Written, Quiet;
    Seqs.DropPrefix(Written(c, L), more);
  }

  lemma ExtendsSelf(c: Config, L: Log)
    ensures Extends(c, L, L)
  {
    hide Written, Quiet;
    assert Written(c, L) + [] == Written(c, L);
    ExtendsBy(c, L, L, []);
  }

  lemma ExtendsOn(c: Config, L: Log, L1: Log, L2: Log)
    requires Extends(c, L, L1) && Extends(c, L1, L2)
    ensures Extends(c, L, L2)
  {
    hide Written, Quiet;
    var w, w1, w2 := Written(c, L), Written(c, L1), Written(c, L2);
    assert w1 == w + w1[|w|..] && w2 == w1 + w2[|w1|..];
    assert w2 == w + (w1[|w|..] + w2[|w1|..]);
    ExtendsBy(c, L, L2, w1[|w|..] + w2[|w1|..]);
  }

  lemma AppendAdds(c: Config, L: Log, e: Entry)
    ensures Written(c, Append(L, e)) == Written(c, L) + [e]
  {
    hide Sealed;
    Seqs.Regroup(Sealed(c, L.closed), L.cur.entries, [e]);
  }

  lemma {:induction false} DefsAreQuiet(c: Config, channels: seq<ChannelDef>, n: nat)
    requires n <= |channels|
    ensures AllQuiet(c, channels, DefEntries(c, channels[..n]))
    decreases n
  {
    hide DefEntry;
    if n > 0 {
      assert channels[..n][..n - 1] == channels[..n - 1];
      DefsAreQuiet(c, channels, n - 1);
    }
  }

  lemma RotateAdds(c: Config, L: Log)
    requires |c.sessionId| == 16
    ensures Extends(c, L, Rotate(c, L))
  {
    hide SealedEntries, Header, StartEntry, IndexEntry, EndEntry, DefEntry, Quiet;
    var L' := Rotate(c, L);
    var begin := L'.cur.entries;
    assert L'.closed[..|L.closed|] == L.closed;
    SealedTail(c, L.cur.entries);
    var ends := [IndexEntry(c, L.cur.entries), EndEntry(L.cur.entries)];
    Seqs.Regroup(Sealed(c, L.closed), L.cur.entries, ends);
    Seqs.Regroup(Written(c, L), ends, begin);
    DefsAreQuiet(c, L.channels, |L.channels|);
    assert L.channels[..|L.channels|] == L.channels;
    ControlsAreQuiet(c, L.channels, L.cur.entries, SegmentNumber(|L.closed| + 1));
    ExtendsBy(c, L, L', ends + begin);
  }

  lemma SealedTail(c: Config, es: seq<Entry>)
    ensures SealedEntries(c, es) == es + [IndexEntry(c, es), EndEntry(es)]
  {
    hide IndexEntry, EndEntry;
  }

  lemma ControlsAreQuiet(c: Config, channels: seq<ChannelDef>, es: seq<Entry>, index: u32)
    ensures Quiet(c, channels, IndexEntry(c, es)) && Quiet(c, channels, EndEntry(es)) && Quiet(c, channels, StartEntry(c, index))
  {
  }

  lemma FlushOneExtends(c: Config, L: Log, ch: nat)
    requires |c.sessionId| == 16 && ch < |L.pending| == |L.channels| <= 0x1_0000
    ensures Extends(c, L, FlushOne(c, L, ch))
  {
    hide Sealed, Rotate, Refused, Extends;
    ExtendsSelf(c, L);
    if L.pending[ch] != [] {
      var e := PendingChunk(L, ch);
      RotateAdds(c, L);
      var L1 := if Refused(c, L, e) then Rotate(c, L) else L;
      AppendAdds(c, L1, e);
      SameChannels(c, L, L1);
      ExtendsBy(c, L1, FlushOne(c, L, ch), [e]);
      ExtendsOn(c, L, L1, FlushOne(c, L, ch));
    }
  }

  lemma SameChannels(c: Config, L: Log, L1: Log)
    requires Extends(c, L, L1)
    ensures L1.channels == L.channels
  {
  }

  lemma {:induction false} FlushFromExtends(c: Config, L: Log, ch: nat)
    requires |c.sessionId| == 16 && ch <= |L.pending| == |L.channels| <= 0x1_0000
    ensures Extends(c, L, FlushFrom(c, L, ch))
    decreases |L.pending| - ch
  {
    hide Extends, FlushOne;
    if ch == |L.pending| {
      ExtendsSelf(c, L);
    } else {
      FlushOneExtends(c, L, ch);
      FlushFromExtends(c, FlushOne(c, L, ch), ch + 1);
      ExtendsOn(c, L, FlushOne(c, L, ch), FlushFrom(c, L, ch));
    }
  }

  lemma FlushAllExtends(c: Config, L: Log)
    requires |c.sessionId| == 16 && |L.pending| == |L.channels| <= 0x1_0000
    ensures Extends(c, L, FlushAll(c, L)) && Extends(c, L, RotateSegment(c, L))
  {
    hide Extends, Rotate;
    FlushFromExtends(c, L, 0);
    RotateAdds(c, FlushAll(c, L));
    ExtendsOn(c, L, FlushAll(c, L), RotateSegment(c, L));
  }

  lemma WriteExtends(c: Config, L: Log, m: Msg, timeUp: bool)
    requires |c.sessionId| == 16 && m.ch < |L.pending| == |L.channels| <= 0x1_0000
    ensures Extends(c, L, Write(c, L, m, timeUp))
  {
    hide Extends, RotateSegment, FlushOne, NeedsRotation, Inner, Sealed;
    FlushAllExtends(c, L);
    ExtendsSelf(c, L);
    if L.channels[m.ch].compression == CODEC_NONE {
      var L1 := if NeedsRotation(c, L.cur, m.ts, ENVELOPE_SIZE + |m.data| + CLOSING_SIZE) then RotateSegment(c, L) else L;
      AppendAdds(c, L1, Message(m));
      SameChannels(c, L, L1);
      ExtendsBy(c, L1, Append(L1, Message(m)), [Message(m)]);
      ExtendsOn(c, L, L1, Append(L1, Message(m)));
    } else {
      var L1 := L.(pending := L.pending[m.ch := L.pending[m.ch] + [m]]);
      assert Written(c, L1) == Written(c, L) + [];
      ExtendsBy(c, L, L1, []);
      FlushOneExtends(c, L1, m.ch);
      ExtendsOn(c, L, L1, FlushOne(c, L1, m.ch));
    }
  }

  // ----- what opening learns -----

  lemma StoredId(d: ChannelDef)
    ensures ParsedDef(StoredDef(d)).id == d.id
  {
    hide LE, Field32, FieldString, FieldBlob, StoredString;
    var rest := [d.layer, d.compression] + LE(d.chunkSize, 4) + LE(d.flushMs, 4)
      + StoredString(d.name) + StoredString(d.schema) + LE(|d.metadata|, 4) + d.metadata;
    assert StoredDef(d) == LE(d.id, 2) + rest;
    FieldsBack(d.id, 2, rest);
  }

  /** Names and schemas that fit their length fields, in definitions that fit a record. */
  ghost predicate AllShort(channels: seq<ChannelDef>) {
    forall i :: 0 <= i < |channels| ==> ShortNames(channels[i]) && |StoredDef(channels[i])| < 0x1_0000_0000
  }

  lemma QuietSaysNothing(c: Config, known: seq<ChannelDef>, e: Entry)
    requires Quiet(c, known, e)
    ensures var r := ToRec(c, e);
            && (r.op == OP_CHANNEL_DEF ==> Admitted(known, ParsedDef(r.payload)) == known) && NoteOf(r) == []
            && (AllShort(known) ==> !Strays(r))
  {
    hide StoredDef, ParsedDef, DefStrays, NoteStrays, Stamp, ChunkPayload, ShortNames;
    OpOf(c, e);
    if e.Control? && e.op == OP_CHANNEL_DEF {
      var i :| 0 <= i < |known| && e == DefEntry(c, known[i]);
      StoredId(known[i]);
      if AllShort(known) {
        StoredDefStays(known[i]);
      }
    }
  }

  lemma OpOf(c: Config, e: Entry)
    ensures ToRec(c, e).op == match e case Message(_) => OP_DATA case Chunk(_, _, _) => OP_CHUNK case Control(op, _, _, _) => op
    ensures e.Control? ==> ToRec(c, e).ts == e.ts && ToRec(c, e).payload == e.payload
  {
  }

  lemma {:induction false} QuietAddsNothing(c: Config, known: seq<ChannelDef>, es: seq<Entry>)
    requires AllQuiet(c, known, es)
    ensures Known(known, Recs(c, es)) == known && Notes(Recs(c, es)) == []
    ensures AllShort(known) ==> NoneStrays(Recs(c, es))
    decreases |es|
  {
    hide ToRec, Quiet, NoteOf, Admitted, ParsedDef, AllShort, Strays;
    if es != [] {
      var n := |es| - 1;
      QuietAddsNothing(c, known, es[..n]);
      QuietSaysNothing(c, known, es[n]);
      SaysSnoc(known, Recs(c, es[..n]), ToRec(c, es[n]));
    }
  }

  /** The channel definitions on file, in order, are the session's channels, the annotations are these, and no record makes the reader stray. */
  ghost predicate Tells(c: Config, L: Log, notes: seq<Note>) {
    && Known([], Recs(c, Written(c, L))) == L.channels && Notes(Recs(c, Written(c, L))) == notes
    && AllShort(L.channels) && NoneStrays(Recs(c, Written(c, L)))
  }

  lemma ExtendsTells(c: Config, L: Log, L': Log, notes: seq<Note>)
    requires Tells(c, L, notes) && Extends(c, L, L')
    ensures Tells(c, L', notes)
  {
    hide Written, Known, Notes, AllShort, NoneStrays;
    var w, w' := Written(c, L), Written(c, L');
    var more := w'[|w|..];
    assert w' == w + more;
    RecsConcat(c, w, more);
    SaysConcat([], Recs(c, w), Recs(c, more));
    StraysConcat(Recs(c, w), Recs(c, more));
    QuietAddsNothing(c, L.channels, more);
    assert notes + [] == notes;
  }

  lemma AppendTells(c: Config, L: Log, e: Entry)
    ensures Known([], Recs(c, Written(c, Append(L, e)))) ==
            var r := ToRec(c, e);
            var known := Known([], Recs(c, Written(c, L)));
            if r.op == OP_CHANNEL_DEF then Admitted(known, ParsedDef(r.payload)) else known
    ensures Notes(Recs(c, Written(c, Append(L, e)))) == Notes(Recs(c, Written(c, L))) + NoteOf(ToRec(c, e))
    ensures NoneStrays(Recs(c, Written(c, Append(L, e)))) <==> NoneStrays(Recs(c, Written(c, L))) && !Strays(ToRec(c, e))
  {
    hide Written, ToRec, Admitted, ParsedDef, NoteOf, Append, Strays, NoneStrays;
    AppendAdds(c, L, e);
    Snoc(c, Written(c, L), e);
    SaysSnoc([], Recs(c, Written(c, L)), ToRec(c, e));
    StraysSnoc(Recs(c, Written(c, L)), ToRec(c, e));
  }

  // ----- runs -----

  ghost predicate DefinesShort(calls: seq<Call>) {
    forall call :: call in calls && call.DefineChannel? ==> ShortNames(call.config)
  }

  function Annotated(calls: seq<Call>): seq<Note> {
    if calls == [] then []
    else
      (if calls[0].AddAnnotation? && |calls[0].text| <= 0xFFFF then [Note(calls[0].ts, calls[0].text, calls[0].metadata)] else [])
      + Annotated(calls[1..])
  }

  lemma DefineTells(c: Config, L: Log, d: ChannelDef, notes: seq<Note>)
    requires Tells(c, L, notes) && d.id == |L.channels| && d.name != [] && ShortNames(d) && |StoredDef(d)| < 0x1_0000_0000
    requires forall i :: 0 <= i < |L.channels| ==> L.channels[i].id == i
    ensures Tells(c, Define(c, L, d), notes)
  {
    hide Written, StoredDef, ParsedDef, Known, Notes, Stamp, ShortNames, NoneStrays, DefStrays;
    var e := DefEntry(c, d);
    OpOf(c, e);
    AppendTells(c, L, e);
    DefReadsBack(d);
    StoredDefStays(d);
    assert Written(c, Define(c, L, d)) == Written(c, Append(L, e)) by { SameWritten(c, Append(L, e), Define(c, L, d)); }
    assert notes + [] == notes;
  }

  lemma SameWritten(c: Config, L: Log, L': Log)
    requires L.closed == L'.closed && L.cur == L'.cur
    ensures Written(c, L) == Written(c, L')
  {
  }

  lemma AnnotateTells(c: Config, L: Log, ts: u64, text: bytes, metadata: bytes, notes: seq<Note>)
    requires |c.sessionId| == 16 && |L.pending| == |L.channels| <= 0x1_0000
    requires Tells(c, L, notes) && |text| <= 0xFFFF && |StoredAnnotation(text, metadata)| < 0x1_0000_0000
    ensures Tells(c, Annotate(c, L, ts, text, metadata), notes + [Note(ts, text, metadata)])
  {
    hide Written, Known, Notes, Stamp, StoredAnnotation, FlushAll, Extends, ParsedNote, NoneStrays, AllShort, NoteStrays;
    var L1, e := FlushAll(c, L), Annotation(ts, text, metadata);
    FlushAllExtends(c, L);
    ExtendsTells(c, L, L1, notes);
    OpOf(c, e);
    AppendTells(c, L1, e);
    MetadataFits(text, metadata);
    NoteReadsBack(ts, text, metadata);
    StoredNoteStays(text, metadata);
  }

  lemma MetadataFits(text: bytes, metadata: bytes)
    ensures |metadata| <= |StoredAnnotation(text, metadata)|
  {
  }

  lemma AnnotatedOne(call: Call)
    ensures Annotated([call]) ==
            if call.AddAnnotation? && |call.text| <= 0xFFFF then [Note(call.ts, call.text, call.metadata)] else []
  {
    assert [call][1..] == [];
  }

  lemma CallTells(c: Config, L: Log, call: Call, notes: seq<Note>)
    requires Invariant(c, L) && Shaped(c, L) && Allowed(L, call) && Tells(c, L, notes)
    requires call.DefineChannel? ==> ShortNames(call.config)
    ensures Tells(c, After(c, L, call), notes + Annotated([call]))
  {
    hide Good, Settled, Tells, Fits, StoredDef, StoredAnnotation, Write, Annotate, FlushAll, RotateSegment, Define, Extends;
    assert notes + [] == notes;
    AnnotatedOne(call);
    match call
    case DefineChannel(d) =>
      if !(d.name == [] || Named(L.channels, d.name) || |L.channels| >= 0xFFFE) {
        forall i | 0 <= i < |L.channels|
          ensures L.channels[i].id == i
        {
          ChannelFacts(c, L, i);
        }
        NumberedIsSound(d, |L.channels|);
        DefineTells(c, L, d.(id := |L.channels|), notes);
      }
    case WriteMessage(m, timeUp) =>
      if m.ch < |L.channels| {
        WriteExtends(c, L, m, timeUp);
        ExtendsTells(c, L, Write(c, L, m, timeUp), notes);
      }
    case AddAnnotation(ts, text, metadata) =>
      if |text| <= 0xFFFF {
        AnnotateTells(c, L, ts, text, metadata, notes);
      }
    case FlushBuffers =>
      FlushAllExtends(c, L);
      ExtendsTells(c, L, FlushAll(c, L), notes);
    case RotateNow =>
      FlushAllExtends(c, L);
      ExtendsTells(c, L, RotateSegment(c, L), notes);
  }

  lemma {:induction false} RunTells(c: Config, L: Log, calls: seq<Call>, notes: seq<Note>)
    requires Invariant(c, L) && Shaped(c, L) && AllAllowed(c, L, calls) && DefinesShort(calls) && Tells(c, L, notes)
    ensures Tells(c, Run(c, L, calls), notes + Annotated(calls))
    decreases |calls|
  {
    hide Invariant, After, Taken, Allowed, Shaped, Tells, ShortNames;
    if calls == [] {
      assert notes + [] == notes;
    } else {
      assert calls[0] in calls;
      CallKeeps(c, L, calls[0]);
      CallTells(c, L, calls[0], notes);
      AnnotatedCons(calls);
      RunTells(c, After(c, L, calls[0]), calls[1..], notes + Annotated([calls[0]]));
      Seqs.Regroup(notes, Annotated([calls[0]]), Annotated(calls[1..]));
    }
  }

  lemma AnnotatedCons(calls: seq<Call>)
    requires calls != []
    ensures Annotated(calls) == Annotated([calls[0]]) + Annotated(calls[1..])
  {
    AnnotatedOne(calls[0]);
  }
}
