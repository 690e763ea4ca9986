/** What a reader learns about a session when it opens it: channels, annotations, message counts, ranges and seek points. */
module Opening {
  import opened Bytes
  import opened Format
  import opened Outcomes
  import opened Stream
  import opened Index
  import opened Recording
  import opened Summary
  import opened Lookup
  import Seqs

  datatype Note = Note(ts: u64, text: bytes, metadata: bytes)

  // ----- fields at the end of a payload -----

  /** The reader's test that n bytes at pos lie in a payload of len bytes: a 32-bit sum. */
  predicate Passes(pos: u32, n: u32, len: u32) { (pos + n) % 0x1_0000_0000 <= len }

  /** The 32-bit sum wraps. */
  predicate Wraps(pos: nat, n: nat) { pos + n >= 0x1_0000_0000 }

  /**
   * The test lets through what lies in the payload, and what makes the sum wrap. So what is copied lies
   * in the payload, or the test rejects, exactly when the sum does not wrap.
   */
  lemma TestIsExact(pos: u32, n: u32, len: u32)
    requires pos <= len
    ensures Passes(pos, n, len) <==> n <= len - pos || Wraps(pos, n)
    ensures (Passes(pos, n, len) ==> pos + n <= len) <==> !Wraps(pos, n)
  {
  }

  // ----- channel definitions -----

  /** A field that is cut short reads as zero and takes nothing. */
  function Field16(s: bytes): (u16, bytes) { if |s| < 2 then (0, s) else (U16(s[..2]), s[2..]) }

  function Field32(s: bytes): (u32, bytes) { if |s| < 4 then (0, s) else (U32(s[..4]), s[4..]) }

  /** A string that is cut short reads as empty; its length field is taken all the same. */
  function FieldString(s: bytes): (bytes, bytes) {
    var (n, rest) := Field16(s);
    if |rest| < n then ([], rest) else (rest[..n], rest[n..])
  }

  function FieldBlob(s: bytes): bytes {
    var (n, rest) := Field32(s);
    if |rest| < n then [] else rest[..n]
  }

  function ParsedDef(p: bytes): ChannelDef {
    var (id, s) := Field16(p);
    if s == [] then ChannelDef(id, [], 0, 0, 0, 0, [], [])
    else if |s| == 1 then ChannelDef(id, [], s[0], 0, 0, 0, [], [])
    else
      var (chunkSize, s1) := Field32(s[2..]);
      var (flushMs, s2) := Field32(s1);
      var (name, s3) := FieldString(s2);
      var (schema, s4) := FieldString(s3);
      ChannelDef(id, name, s[0], s[1], chunkSize, flushMs, schema, FieldBlob(s4))
  }

  /** What follows the schema in a payload of at least four bytes. */
  function AfterSchema(p: bytes): bytes
    requires |p| >= 4
  {
    var (_, s1) := Field32(p[4..]);
    var (_, s2) := Field32(s1);
    var (_, s3) := FieldString(s2);
    var (_, s4) := FieldString(s3);
    s4
  }

  /** The metadata length makes the 32-bit test wrap: bytes behind the payload would be copied. */
  predicate DefStrays(p: bytes) {
    |p| >= 4 &&
    var (n, rest) := Field32(AfterSchema(p));
    |p| >= |rest| && Wraps(|p| - |rest|, n)
  }

  /** Two strings with 16-bit lengths and the fixed fields end here: in front of it no 32-bit sum but that of the metadata wraps. */
  const FAR: nat := 0x3_0000

  method Read16(p: bytes, pos: nat) returns (v: u16, next: nat)
    requires pos <= |p| && pos < FAR
    ensures next <= |p| && next <= pos + 2 && (v, p[next..]) == Field16(p[pos..])
  {
    if (pos + 2) % 0x1_0000_0000 > |p| {
      return 0, pos;
    }
    assert p[pos..][..2] == p[pos..pos + 2] && p[pos..][2..] == p[pos + 2..];
    return U16(p[pos..pos + 2]), pos + 2;
  }

  method Read32(p: bytes, pos: nat) returns (v: u32, next: nat)
    requires pos <= |p| && pos < FAR
    ensures next <= |p| && next <= pos + 4 && (v, p[next..]) == Field32(p[pos..])
  {
    if (pos + 4) % 0x1_0000_0000 > |p| {
      return 0, pos;
    }
    assert p[pos..][..4] == p[pos..pos + 4] && p[pos..][4..] == p[pos + 4..];
    return U32(p[pos..pos + 4]), pos + 4;
  }

  method ReadString16(p: bytes, pos: nat) returns (t: bytes, next: nat)
    requires pos <= |p| && pos + 2 < FAR
    ensures next <= |p| && next < pos + 0x1_0002 && (t, p[next..]) == FieldString(p[pos..])
  {
    hide Field16;
    var n;
    n, next := Read16(p, pos);
    if (next + n) % 0x1_0000_0000 > |p| {
      return [], next;
    }
    t := p[next..next + n];
    assert p[next..][..n] == t && p[next..][n..] == p[next + n..];
    next := next + n;
  }

  /** Reads a CHANNEL_DEF payload field by field, and says whether it would copy bytes that are not the payload's. */
  method ParseChannelDefPayload(p: bytes) returns (ch: ChannelDef, strayed: bool)
    requires |p| < 0x1_0000_0000
    ensures ch == ParsedDef(p) && strayed == DefStrays(p)
  {
    hide Field16, Field32, FieldString, U16, U32;
    assert p[0..] == p;
    strayed := false;
    ShortPayload(p);
    var id, pos := Read16(p, 0);
    ghost var s := p[pos..];
    ch := ChannelDef(id, [], 0, 0, 0, 0, [], []);
    if pos >= |p| {
      return;
    }
    ch := ch.(layer := p[pos]);
    pos := pos + 1;
    if pos >= |p| {
      return;
    }
    ch := ch.(compression := p[pos]);
    pos := pos + 1;
    assert s[2..] == p[pos..] == p[4..];
    var chunkSize, flushMs, name, schema;
    chunkSize, pos := Read32(p, pos);
    flushMs, pos := Read32(p, pos);
    name, pos := ReadString16(p, pos);
    schema, pos := ReadString16(p, pos);
    ch := ch.(chunkSize := chunkSize, flushMs := flushMs, name := name, schema := schema);
    var metaLen;
    metaLen, pos := Read32(p, pos);
    TestIsExact(pos, metaLen, |p|);
    if (pos + metaLen) % 0x1_0000_0000 <= |p| {
      if pos + metaLen <= |p| {
        assert p[pos..][..metaLen] == p[pos..pos + metaLen];
        ch := ch.(metadata := p[pos..pos + metaLen]);
      } else {
        strayed := true;
      }
    }
  }

  lemma ShortPayload(p: bytes)
    ensures |p| < 2 ==> Field16(p) == (0, p)
    ensures |p| >= 2 ==> Field16(p).1 == p[2..]
  {
  }

  predicate ShortNames(d: ChannelDef) { |d.name| < 0x1_0000 && |d.schema| < 0x1_0000 }

  lemma FieldsBack(n: nat, k: nat, rest: bytes)
    ensures k == 2 && n < 0x1_0000 ==> Field16(LE(n, 2) + rest) == (n, rest)
    ensures k == 4 && n < 0x1_0000_0000 ==> Field32(LE(n, 4) + rest) == (n, rest)
  {
    hide LE;
    assert (LE(n, 2) + rest)[..2] == LE(n, 2) && (LE(n, 4) + rest)[..4] == LE(n, 4);
    assert (LE(n, 2) + rest)[2..] == rest && (LE(n, 4) + rest)[4..] == rest;
    if n < 0x1_0000 {
      ReadBack(n, 0, 0);
    }
    if n < 0x1_0000_0000 {
      ReadBack(0, n, 0);
    }
  }

  lemma StringBack(t: bytes, rest: bytes)
    requires |t| < 0x1_0000
    ensures FieldString(StoredString(t) + rest) == (t, rest)
  {
    hide LE, Field16;
    Seqs.Regroup(LE(|t|, 2), t, rest);
    FieldsBack(|t|, 2, t + rest);
    Seqs.DropPrefix(t, rest);
  }

  lemma BlobBack(t: bytes)
    requires |t| < 0x1_0000_0000
    ensures FieldBlob(LE(|t|, 4) + t) == t
  {
    hide LE, Field32;
    FieldsBack(|t|, 4, t);
    assert t[..|t|] == t;
  }

  lemma ParsedIsShort(p: bytes)
    ensures ShortNames(ParsedDef(p))
  {
    hide U16, U32;
  }

  /** A stored definition is read back as it was exactly when its name and schema fit their 16-bit lengths. */
  lemma DefReadsBack(d: ChannelDef)
    requires |StoredDef(d)| < 0x1_0000_0000
    ensures ParsedDef(StoredDef(d)) == d <==> ShortNames(d)
  {
    hide LE, Field16, Field32, FieldString, FieldBlob, StoredString;
    ParsedIsShort(StoredDef(d));
    if ShortNames(d) {
      var blob := LE(|d.metadata|, 4) + d.metadata;
      var s4 := blob;
      var s3 := StoredString(d.schema) + s4;
      var s2 := StoredString(d.name) + s3;
      var s1 := LE(d.flushMs, 4) + s2;
      var s0 := LE(d.chunkSize, 4) + s1;
      assert StoredDef(d) == LE(d.id, 2) + ([d.layer, d.compression] + s0);
      FieldsBack(d.id, 2, [d.layer, d.compression] + s0);
      assert ([d.layer, d.compression] + s0)[2..] == s0;
      FieldsBack(d.chunkSize, 4, s1);
      FieldsBack(d.flushMs, 4, s2);
      StringBack(d.name, s3);
      StringBack(d.schema, s4);
      BlobBack(d.metadata);
    }
  }

  /** A stored definition with a short name and schema never makes the test wrap. */
  lemma StoredDefStays(d: ChannelDef)
    requires |StoredDef(d)| < 0x1_0000_0000 && ShortNames(d)
    ensures !DefStrays(StoredDef(d))
  {
    hide LE, Field32, FieldString, StoredString;
    var p := StoredDef(d);
    var s4 := LE(|d.metadata|, 4) + d.metadata;
    var s3 := StoredString(d.schema) + s4;
    var s2 := StoredString(d.name) + s3;
    var s1 := LE(d.flushMs, 4) + s2;
    assert p == (LE(d.id, 2) + [d.layer, d.compression]) + (LE(d.chunkSize, 4) + s1);
    assert p[4..] == LE(d.chunkSize, 4) + s1;
    FieldsBack(d.chunkSize, 4, s1);
    FieldsBack(d.flushMs, 4, s2);
    StringBack(d.name, s3);
    StringBack(d.schema, s4);
    assert |d.metadata| <= |s4| <= |p|;
    FieldsBack(|d.metadata|, 4, d.metadata);
  }

  // ----- annotations -----

  function ParsedNote(ts: u64, p: bytes): Option<Note> {
    if |p| < 2 then None
    else
      var n := U16(p[..2]);
      if 2 + n + 4 > |p| then None
      else
        var m := U32(p[2 + n..6 + n]);
        Some(Note(ts, p[2..2 + n], if 6 + n + m <= |p| then p[6 + n..6 + n + m] else []))
  }

  /** The metadata length makes the 32-bit test wrap. */
  predicate NoteStrays(p: bytes) {
    |p| >= 2 &&
    var n := U16(p[..2]);
    6 + n <= |p| && Wraps(6 + n, U32(p[2 + n..6 + n]))
  }

  /** A payload of six bytes that makes the reader copy almost 4 GiB from behind it. */
  lemma SixByteStray()
    ensures NoteStrays([0, 0, 0xFA, 0xFF, 0xFF, 0xFF])
  {
    var p: bytes := [0, 0, 0xFA, 0xFF, 0xFF, 0xFF];
    assert p[..2] == LE(0, 2);
    ReadBack(0, 0xFFFF_FFFA, 0);
    FourBytes();
    assert p[2..6] == LE(0xFFFF_FFFA, 4);
  }

  lemma FourBytes()
    ensures LE(0xFFFF_FFFA, 4) == [0xFA, 0xFF, 0xFF, 0xFF]
  {
    assert LE(0xFF, 1) == [0xFF] + LE(0, 0);
    assert LE(0xFFFF, 2) == [0xFF] + LE(0xFF, 1);
    assert LE(0xFF_FFFF, 3) == [0xFF] + LE(0xFFFF, 2);
  }

  lemma StoredNoteStays(text: bytes, metadata: bytes)
    requires |text| < 0x1_0000 && |StoredAnnotation(text, metadata)| < 0x1_0000_0000
    ensures !NoteStrays(StoredAnnotation(text, metadata))
  {
    hide LE;
    var p, n := StoredAnnotation(text, metadata), |text|;
    assert p[..2] == LE(n, 2) && p[2 + n..6 + n] == LE(|metadata|, 4);
    ReadBack(n, |metadata|, 0);
  }

  lemma NoteReadsBack(ts: u64, text: bytes, metadata: bytes)
    requires |text| < 0x1_0000 && |metadata| < 0x1_0000_0000
    ensures ParsedNote(ts, StoredAnnotation(text, metadata)) == Some(Note(ts, text, metadata))
  {
    hide LE;
    var p, n := StoredAnnotation(text, metadata), |text|;
    assert p[..2] == LE(n, 2) && p[2..2 + n] == text;
    assert p[2 + n..6 + n] == LE(|metadata|, 4) && p[6 + n..6 + n + |metadata|] == metadata;
    ReadBack(n, |metadata|, 0);
  }

  // ----- what a sequence of records says -----

  predicate HasId(channels: seq<ChannelDef>, id: u16) { exists i :: 0 <= i < |channels| && channels[i].id == id }

  /** A definition counts when it has a name and the first one with its id. */
  function Admitted(known: seq<ChannelDef>, d: ChannelDef): seq<ChannelDef> {
    if d.name != [] && !HasId(known, d.id) then known + [d] else known
  }

  function Known(known: seq<ChannelDef>, rs: seq<Rec>): seq<ChannelDef> {
    if rs == [] then known
    else
      var before, r := Known(known, rs[..|rs| - 1]), rs[|rs| - 1];
      if r.op == OP_CHANNEL_DEF then Admitted(before, ParsedDef(r.payload)) else before
  }

  /** The record defines a channel with a name. */
  ghost predicate Defines(r: Rec) { r.op == OP_CHANNEL_DEF && ParsedDef(r.payload).name != [] }

  /** Record p defines a channel whose number was neither known before nor defined by an earlier record. */
  ghost predicate FirstDefinition(known: seq<ChannelDef>, rs: seq<Rec>, p: nat) {
    && p < |rs| && Defines(rs[p]) && !HasId(known, ParsedDef(rs[p].payload).id)
    && forall q :: 0 <= q < p && Defines(rs[q]) ==> ParsedDef(rs[q].payload).id != ParsedDef(rs[p].payload).id
  }

  /** Behind the channels known before, those of exactly these records, in order. */
  ghost predicate Learns(known: seq<ChannelDef>, rs: seq<Rec>, channels: seq<ChannelDef>, at: seq<nat>) {
    && |channels| == |known| + |at| && channels[..|known|] == known
    && (forall t :: 0 <= t < |at| ==> at[t] < |rs| && FirstDefinition(known, rs, at[t]) && channels[|known| + t] == ParsedDef(rs[at[t]].payload))
    && (forall t, u :: 0 <= t < u < |at| ==> at[t] < at[u])
    && forall p: nat :: FirstDefinition(known, rs, p) ==> p in at
  }

  lemma {:induction false} KnownIds(known: seq<ChannelDef>, rs: seq<Rec>, id: u16)
    ensures HasId(Known(known, rs), id) <==>
              HasId(known, id) || exists q :: 0 <= q < |rs| && Defines(rs[q]) && ParsedDef(rs[q].payload).id == id
    decreases |rs|
  {
    hide ParsedDef;
    if rs != [] {
      var n := |rs| - 1;
      var before, after := Known(known, rs[..n]), Known(known, rs);
      KnownIds(known, rs[..n], id);
      assert forall q :: 0 <= q < n ==> rs[..n][q] == rs[q];
      if HasId(before, id) {
        var i :| 0 <= i < |before| && before[i].id == id;
        assert after[i] == before[i];
      }
      if Defines(rs[n]) && ParsedDef(rs[n].payload).id == id && !HasId(before, id) {
        assert after[|before|].id == id;
      }
    }
  }

  lemma FirstOfMore(known: seq<ChannelDef>, rs: seq<Rec>, r: Rec, p: nat)
    requires p < |rs|
    ensures FirstDefinition(known, rs + [r], p) <==> FirstDefinition(known, rs, p)
  {
    hide Defines, ParsedDef, HasId;
    assert forall q :: 0 <= q <= p ==> (rs + [r])[q] == rs[q];
  }

  lemma FirstAtEnd(known: seq<ChannelDef>, rs: seq<Rec>, r: Rec)
    ensures FirstDefinition(known, rs + [r], |rs|) <==> Defines(r) && !HasId(Known(known, rs), ParsedDef(r.payload).id)
  {
    hide Defines, ParsedDef, HasId, Known;
    KnownIds(known, rs, ParsedDef(r.payload).id);
    assert (rs + [r])[|rs|] == r && forall q :: 0 <= q < |rs| ==> (rs + [r])[q] == rs[q];
  }

  lemma FirstsStay(known: seq<ChannelDef>, rs: seq<Rec>, r: Rec)
    ensures forall p: nat :: FirstDefinition(known, rs, p) ==> p < |rs| && FirstDefinition(known, rs + [r], p)
    ensures forall p: nat :: FirstDefinition(known, rs + [r], p) ==> p == |rs| || FirstDefinition(known, rs, p)
  {
    forall p: nat | p < |rs|
      ensures FirstDefinition(known, rs + [r], p) <==> FirstDefinition(known, rs, p)
    {
      FirstOfMore(known, rs, r, p);
    }
    hide Defines, ParsedDef, HasId;
  }

  lemma LearnsSame(known: seq<ChannelDef>, rs: seq<Rec>, channels: seq<ChannelDef>, at: seq<nat>, r: Rec)
    requires Learns(known, rs, channels, at) && !FirstDefinition(known, rs + [r], |rs|)
    ensures Learns(known, rs + [r], channels, at)
  {
    FirstsStay(known, rs, r);
    hide FirstDefinition, ParsedDef;
    assert forall t :: 0 <= t < |at| ==> (rs + [r])[at[t]] == rs[at[t]];
  }

  lemma LearnsOne(known: seq<ChannelDef>, rs: seq<Rec>, channels: seq<ChannelDef>, at: seq<nat>, r: Rec)
    requires Learns(known, rs, channels, at) && FirstDefinition(known, rs + [r], |rs|)
    ensures Learns(known, rs + [r], channels + [ParsedDef(r.payload)], at + [|rs|])
  {
    FirstsStay(known, rs, r);
    hide FirstDefinition, ParsedDef;
    var more, all := at + [|rs|], channels + [ParsedDef(r.payload)];
    assert all[..|known|] == known;
    forall t | 0 <= t < |more|
      ensures FirstDefinition(known, rs + [r], more[t]) && more[t] < |rs + [r]| && all[|known| + t] == ParsedDef((rs + [r])[more[t]].payload)
    {
      if t < |at| {
        assert FirstDefinition(known, rs, at[t]);
      }
    }
    forall p: nat | FirstDefinition(known, rs + [r], p)
      ensures p in more
    {
      assert more[|at|] == |rs|;
    }
  }

  /** The channels of a session: those known before, then every named definition that is the first with its number, in order. */
  lemma {:induction false} KnownLearns(known: seq<ChannelDef>, rs: seq<Rec>) returns (at: seq<nat>)
    ensures Learns(known, rs, Known(known, rs), at)
    decreases |rs|
  {
    if rs == [] {
      at := [];
      assert known[..|known|] == known;
    } else {
      hide Learns, FirstDefinition, ParsedDef, HasId;
      var n := |rs| - 1;
      assert rs == rs[..n] + [rs[n]];
      at := KnownLearns(known, rs[..n]);
      FirstAtEnd(known, rs[..n], rs[n]);
      if FirstDefinition(known, rs, n) {
        LearnsOne(known, rs[..n], Known(known, rs[..n]), at, rs[n]);
        at := at + [n];
      } else {
        LearnsSame(known, rs[..n], Known(known, rs[..n]), at, rs[n]);
      }
    }
  }

  function NoteOf(r: Rec): seq<Note> {
    if r.op == OP_ANNOTATION && ParsedNote(r.ts, r.payload).Some? then [ParsedNote(r.ts, r.payload).value] else []
  }

  function Notes(rs: seq<Rec>): seq<Note> {
    if rs == [] then [] else Notes(rs[..|rs| - 1]) + NoteOf(rs[|rs| - 1])
  }

  /** The reader would copy bytes behind the record's payload. */
  predicate Strays(r: Rec) {
    (r.op == OP_CHANNEL_DEF && DefStrays(r.payload)) || (r.op == OP_ANNOTATION && NoteStrays(r.payload))
  }

  ghost predicate NoneStrays(rs: seq<Rec>) { forall i :: 0 <= i < |rs| ==> !Strays(rs[i]) }

  lemma StraysSnoc(rs: seq<Rec>, r: Rec)
    ensures NoneStrays(rs + [r]) <==> NoneStrays(rs) && !Strays(r)
  {
    hide Strays;
    var all := rs + [r];
    assert all[|rs|] == r && forall i :: 0 <= i < |rs| ==> all[i] == rs[i];
  }

  lemma StraysConcat(a: seq<Rec>, b: seq<Rec>)
    ensures NoneStrays(a + b) <==> NoneStrays(a) && NoneStrays(b)
  {
    hide Strays;
    var all := a + b;
    assert (forall i :: 0 <= i < |a| ==> all[i] == a[i]) && forall i :: 0 <= i < |b| ==> all[|a| + i] == b[i];
  }

  /** The points of the last INDEX record that could be loaded. */
  function LastIndex(rs: seq<Rec>): seq<SeekPoint> {
    if rs == [] then []
    else
      var r := rs[|rs| - 1];
      if r.op == OP_INDEX && LoadedPoints(r.payload).Some? then LoadedPoints(r.payload).value
      else LastIndex(rs[..|rs| - 1])
  }

  lemma SaysSnoc(known: seq<ChannelDef>, rs: seq<Rec>, r: Rec)
    ensures Known(known, rs + [r]) ==
            if r.op == OP_CHANNEL_DEF then Admitted(Known(known, rs), ParsedDef(r.payload)) else Known(known, rs)
    ensures Notes(rs + [r]) == Notes(rs) + NoteOf(r)
    ensures LastIndex(rs + [r]) ==
            if r.op == OP_INDEX && LoadedPoints(r.payload).Some? then LoadedPoints(r.payload).value else LastIndex(rs)
    ensures forall ch :: Declared(rs + [r], ch) == Declared(rs, ch) + if r.ch == ch then Declares(r) else 0
  {
    hide LoadedPoints, ParsedDef, Admitted, Declares, NoteOf;
    assert (rs + [r])[..|rs|] == rs;
  }

  lemma {:induction false} SaysConcat(known: seq<ChannelDef>, a: seq<Rec>, b: seq<Rec>)
    ensures Known(known, a + b) == Known(Known(known, a), b)
    ensures Notes(a + b) == Notes(a) + Notes(b)
    ensures forall ch :: Declared(a + b, ch) == Declared(a, ch) + Declared(b, ch)
    decreases |b|
  {
    hide LoadedPoints, ParsedDef, Admitted, Declares, NoteOf;
    if b == [] {
      assert a + b == a;
    } else {
      var n := |b| - 1;
      assert (a + b)[..|a + b| - 1] == a + b[..n];
      SaysConcat(known, a, b[..n]);
      Seqs.Regroup(Notes(a), Notes(b[..n]), NoteOf(b[n]));
    }
  }

  // ----- the scan -----

  datatype SegmentData = SegmentData(file: bytes, idx: SeekIndex, startNs: u64, endNs: u64)

  /** The records the scan of a file looks at. */
  function Scanned(file: bytes): seq<Rec> {
    if |file| >= HEADER_SIZE && file[..8] == MAGIC then FileRecords(file) else []
  }

  /** A count for every channel number up to some number. */
  type Totals = s: seq<nat> | |s| <= 0x1_0000

  function CountOn(totals: seq<nat>, ch: u16): nat { if ch < |totals| then totals[ch] else 0 }

  /** What scanning one segment tells about the segment itself. */
  ghost predicate Describes(seg: SegmentData, rs: seq<Rec>)
    reads seg.idx
  {
    && seg.startNs == StartOf(rs) && seg.endNs == Greatest(rs)
    && Sorted(seg.idx.Points) && multiset(seg.idx.Points) == multiset(LastIndex(rs))
  }

  /**
   * Collects what the segments of a session say. Once a copy has strayed behind its payload the
   * original's behaviour is no longer defined by the file; here the field is then left empty.
   */
  class OpenScan {
    var Channels: seq<ChannelDef>
    var Annots: seq<Note>
    var ChTotalCount: Totals
    var Strayed: bool

    constructor (channels: seq<ChannelDef>)
      ensures Channels == channels && Annots == [] && ChTotalCount == [] && !Strayed
    {
      Channels, Annots, ChTotalCount, Strayed := channels, [], [], false;
    }

    method AdmitChannel(payload: bytes)
      requires |payload| < 0x1_0000_0000
      modifies this`Channels, this`Strayed
      ensures Channels == Admitted(old(Channels), ParsedDef(payload))
      ensures Strayed == (old(Strayed) || DefStrays(payload))
    {
      hide ParsedDef, DefStrays;
      var ch, strayed := ParseChannelDefPayload(payload);
      Strayed := Strayed || strayed;
      var known := FindId(Channels, ch.id);
      if ch.name != [] && known == |Channels| {
        Channels := Channels + [ch];
      }
    }

    method AddToCount(ch: u16, n: nat)
      modifies this`ChTotalCount
      ensures forall k: u16 :: CountOn(ChTotalCount, k) == CountOn(old(ChTotalCount), k) + if k == ch then n else 0
    {
      if |ChTotalCount| < ch + 1 {
        ChTotalCount := ChTotalCount + seq(ch + 1 - |ChTotalCount|, _ => 0);
      }
      ChTotalCount := ChTotalCount[ch := ChTotalCount[ch] + n];
    }

    method CollectAnnotation(ts: u64, payload: bytes)
      requires |payload| < 0x1_0000_0000
      modifies this`Annots, this`Strayed
      ensures Annots == old(Annots) + match ParsedNote(ts, payload) case Some(a) => [a] case None => []
      ensures Strayed == (old(Strayed) || NoteStrays(payload))
    {
      hide U16, U32;
      if |payload| >= 2 {
        var labelLen := U16(payload[..2]);
        if 2 + labelLen + 4 <= |payload| {
          var ann := Note(ts, payload[2..2 + labelLen], []);
          var metaLen := U32(payload[2 + labelLen..6 + labelLen]);
          var metaOffset := 2 + labelLen + 4;
          TestIsExact(metaOffset, metaLen, |payload|);
          if (metaOffset + metaLen) % 0x1_0000_0000 <= |payload| {
            if metaOffset + metaLen <= |payload| {
              ann := ann.(metadata := payload[metaOffset..metaOffset + metaLen]);
            } else {
              Strayed := true;
            }
          }
          Annots := Annots + [ann];
        }
      }
    }

    /** Takes note of one record. */
    method Visit(r: Rec, idx: SeekIndex)
      requires Framed(r)
      modifies this, idx
      ensures Strayed == (old(Strayed) || Strays(r))
      ensures Channels == if r.op == OP_CHANNEL_DEF then Admitted(old(Channels), ParsedDef(r.payload)) else old(Channels)
      ensures Annots == old(Annots) + NoteOf(r)
      ensures forall k: u16 :: CountOn(ChTotalCount, k) == CountOn(old(ChTotalCount), k) + if r.ch == k then Declares(r) else 0
      ensures if r.op == OP_INDEX && LoadedPoints(r.payload).Some?
              then Sorted(idx.Points) && multiset(idx.Points) == multiset(LoadedPoints(r.payload).value)
              else idx.Points == old(idx.Points)
    {
      hide ParsedDef, ParsedNote, DefStrays, NoteStrays, LoadedPoints, Admitted, U32, CountOn;
      if r.op == OP_CHANNEL_DEF {
        AdmitChannel(r.payload);
      } else if r.op == OP_DATA {
        AddToCount(r.ch, 1);
      } else if r.op == OP_CHUNK {
        if |r.payload| >= CHUNK_HEADER_SIZE {
          AddToCount(r.ch, U32(r.payload[5..9]));
        }
      } else if r.op == OP_INDEX {
        var ok := idx.Load(r.payload);
      } else if r.op == OP_ANNOTATION {
        CollectAnnotation(r.ts, r.payload);
      }
    }

    /** Walks one segment, without looking at checksums. */
    method ScanSegmentAtOpen(file: bytes) returns (seg: SegmentData)
      modifies this
      ensures fresh(seg.idx) && seg.file == file && Describes(seg, Scanned(file))
      ensures Channels == Known(old(Channels), Scanned(file))
      ensures Annots == old(Annots) + Notes(Scanned(file))
      ensures forall k: u16 :: CountOn(ChTotalCount, k) == CountOn(old(ChTotalCount), k) + Declared(Scanned(file), k)
      ensures Strayed <==> old(Strayed) || !NoneStrays(Scanned(file))
    {
      hide Stuck, Decode, PayloadLength, Known, Notes, Declared, LastIndex, Least, Greatest, Records, CountOn, Admitted, NoteOf, Declares, Strays;
      var idx := new SeekIndex();
      NothingSaid(Channels);
      if |file| < HEADER_SIZE || file[..8] != MAGIC {
        return SegmentData(file, idx, 0, 0);
      }
      ghost var body := file[HEADER_SIZE..];
      ghost var done: seq<Rec> := [];
      assert done + Records(body) == Records(body);
      var startNs, endNs, offset := U64_MAX, 0, HEADER_SIZE;
      while !Stuck(file[offset..])
        invariant HEADER_SIZE <= offset <= |file| && fresh(idx)
        invariant done + Records(file[offset..]) == Records(body)
        invariant startNs == Least(done) && endNs == Greatest(done)
        invariant Channels == Known(old(Channels), done) && Annots == old(Annots) + Notes(done)
        invariant forall k: u16 :: CountOn(ChTotalCount, k) == CountOn(old(ChTotalCount), k) + Declared(done, k)
        invariant Sorted(idx.Points) && multiset(idx.Points) == multiset(LastIndex(done))
        invariant Strayed <==> old(Strayed) || !NoneStrays(done)
        decreases |file| - offset
      {
        var s := file[offset..];
        var r := Decode(s);
        Visit(r, idx);
        if r.op == OP_DATA || r.op == OP_CHUNK {
          if r.ts < startNs {
            startNs := r.ts;
          }
          if r.ts > endNs {
            endNs := r.ts;
          }
        }
        SaysSnoc(old(Channels), done, r);
        StraysSnoc(done, r);
        PointsSnoc(0, done, r);
        Seqs.Regroup(old(Annots), Notes(done), NoteOf(r));
        WalkOn(s, done);
        Seqs.DropTwice(file, offset, Extent(s));
        done := done + [r];
        offset := offset + Extent(s);
      }
      AtStuck(file[offset..], done);
      if startNs == U64_MAX {
        startNs := 0;
      }
      seg := SegmentData(file, idx, startNs, endNs);
    }
  }

  lemma NothingSaid(known: seq<ChannelDef>)
    ensures Known(known, []) == known && Notes([]) == [] && LastIndex([]) == [] && forall ch :: Declared([], ch) == 0
    ensures Least([]) == U64_MAX && Greatest([]) == 0
  {
  }

  lemma WalkOn(s: bytes, done: seq<Rec>)
    requires !Stuck(s)
    ensures done + Records(s) == (done + [Decode(s)]) + Records(s[Extent(s)..])
  {
    hide Stuck, Decode;
    Seqs.Regroup(done, [Decode(s)], Records(s[Extent(s)..]));
  }

  lemma AtStuck(s: bytes, done: seq<Rec>)
    requires Stuck(s)
    ensures done + Records(s) == done
  {
  }
}
