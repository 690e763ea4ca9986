/**
 * The file format byte by byte: which number, least significant byte first, stands at which offset of a
 * header, an envelope, every kind of payload and a footer, and where the footer points.
 */
module Layout {
  import opened Bytes
  import opened Format
  import opened Routines
  import opened Stream
  import opened Index
  import opened Summary
  import opened Recording
  import opened Conservation
  import opened Recovery
  import Limits
  import Json
  import Seqs

  // ----- numbers -----

  ghost function At2(s: bytes, k: nat): nat
    requires k + 2 <= |s|
  {
    (s[k] as nat) + 0x100 * (s[k + 1] as nat)
  }

  ghost function At4(s: bytes, k: nat): nat
    requires k + 4 <= |s|
  {
    At2(s, k) + 0x1_0000 * At2(s, k + 2)
  }

  ghost function At8(s: bytes, k: nat): nat
    requires k + 8 <= |s|
  {
    At4(s, k) + 0x1_0000_0000 * At4(s, k + 4)
  }

  lemma NatOfFirst(t: bytes, k: nat)
    requires k < |t|
    ensures Nat(t[k..]) == (t[k] as nat) + 0x100 * Nat(t[k + 1..])
  {
    assert t[k..][1..] == t[k + 1..];
  }

  lemma NatOf2(t: bytes)
    requires |t| == 2
    ensures Nat(t) == (t[0] as nat) + 0x100 * (t[1] as nat)
  {
    assert t[0..] == t && t[2..] == [];
    NatOfFirst(t, 0);
    NatOfFirst(t, 1);
  }

  lemma NatOf4(t: bytes)
    requires |t| == 4
    ensures Nat(t) == Nat(t[..2]) + 0x1_0000 * Nat(t[2..])
  {
    NatOf2(t[..2]);
    assert t[0..] == t;
    NatOfFirst(t, 0);
    NatOfFirst(t, 1);
  }

  lemma NatOf8(t: bytes)
    requires |t| == 8
    ensures Nat(t) == Nat(t[..4]) + 0x1_0000_0000 * Nat(t[4..])
  {
    NatOf4(t[..4]);
    assert t[..4][..2] == t[..2] && t[..4][2..] == t[2..4];
    NatOf2(t[..2]);
    NatOf2(t[2..4]);
    hide Nat;
    assert t[0..] == t;
    NatOfFirst(t, 0);
    NatOfFirst(t, 1);
    NatOfFirst(t, 2);
    NatOfFirst(t, 3);
  }

  lemma Number4(s: bytes, k: nat)
    requires k + 4 <= |s|
    ensures Nat(s[k..k + 4]) == At4(s, k)
  {
    var t := s[k..k + 4];
    NatOf4(t);
    NatOf2(t[..2]);
    NatOf2(t[2..]);
  }

  /** A field stored at an offset is the number there. */
  lemma Field2(s: bytes, k: nat, n: u16)
    requires k + 2 <= |s| && s[k..k + 2] == LE(n, 2)
    ensures At2(s, k) == n
  {
    hide LE;
    ReadBack(n, 0, 0);
    NatOf2(s[k..k + 2]);
  }

  lemma Field4(s: bytes, k: nat, n: u32)
    requires k + 4 <= |s| && s[k..k + 4] == LE(n, 4)
    ensures At4(s, k) == n
  {
    hide LE, At4, Nat;
    ReadBack(0, n, 0);
    Number4(s, k);
  }

  lemma Field8(s: bytes, k: nat, n: u64)
    requires k + 8 <= |s| && s[k..k + 8] == LE(n, 8)
    ensures At8(s, k) == n
  {
    hide LE, At4, Nat;
    ReadBack(0, 0, n);
    NatOf8(s[k..k + 8]);
    assert s[k..k + 8][..4] == s[k..k + 4] && s[k..k + 8][4..] == s[k + 4..k + 8];
    Number4(s, k);
    Number4(s, k + 4);
  }

  // ----- header, envelope, footer -----

  lemma Pieces(a: bytes, b: bytes, c: bytes, d: bytes, e: bytes)
    ensures a + b + c + d + e == a + (b + (c + (d + e)))
  {
    Seqs.Regroup(a + b + c, d, e);
    Seqs.Regroup(a + b, c, d + e);
    Seqs.Regroup(a, b, c + (d + e));
  }

  lemma Next(s: bytes, k: nat, one: bytes, rest: bytes)
    requires k <= |s| && s[k..] == one + rest
    ensures k + |one| <= |s| && s[k..k + |one|] == one && s[k + |one|..] == rest
  {
    assert |s[k..]| == |one| + |rest|;
    assert s[k..k + |one|] == s[k..][..|one|];
    Seqs.DropTwice(s, k, |one|);
  }

  lemma HeaderSlices(c: Config, index: u32, channels: seq<ChannelDef>)
    requires |c.sessionId| == 16
    ensures var h := Header(c, index, channels);
            && |h| == 64 && h[0..10] == MAGIC + [1, 0] && h[10..26] == c.sessionId && h[26..30] == LE(index, 4)
            && h[30..38] == LE(c.createdAtNs, 8)
            && h[38..40] == LE((if AnyCompressed(channels) then 1 else 0) + (if c.crcEnabled then 2 else 0), 2)
            && h[40..] == seq(24, _ => 0)
  {
    hide LE, AnyCompressed;
    var h := Header(c, index, channels);
    var flags := LE((if AnyCompressed(channels) then FILE_FLAG_COMPRESSION else 0) + (if c.crcEnabled then FILE_FLAG_CRC else 0), 2);
    var zeros: bytes := seq(24, _ => 0);
    var front, number, time := MAGIC + [1, 0], LE(index, 4), LE(c.createdAtNs, 8);
    Pieces(front, c.sessionId, number, time, flags);
    var fields := c.sessionId + (number + (time + flags));
    assert h == (front + fields) + zeros;
    hide Header;
    Seqs.DropPrefix(front + fields, zeros);
    assert h[..40] == front + fields;
    Next(h[..40], 0, front, fields);
    Next(h[..40], 10, c.sessionId, number + (time + flags));
    Next(h[..40], 26, number, time + flags);
    Next(h[..40], 30, time, flags);
  }

  /** The header of a segment: version 1.0, session, segment number, creation time, flags, and zeros to its end. */
  lemma HeaderFields(c: Config, index: u32, channels: seq<ChannelDef>)
    requires |c.sessionId| == 16
    ensures var h := Header(c, index, channels);
            && |h| == 64 && h[..8] == [0x89, 0x52, 0x45, 0x43, 0x0D, 0x0A, 0x1A, 0x0A] && h[8] == 1 && h[9] == 0
            && h[10..26] == c.sessionId && At4(h, 26) == index && At8(h, 30) == c.createdAtNs
            && At2(h, 38) == (if exists k :: 0 <= k < |channels| && channels[k].compression != CODEC_NONE then 1 else 0)
                             + (if c.crcEnabled then 2 else 0)
            && forall k :: 40 <= k < 64 ==> h[k] == 0
  {
    hide LE, At2, At4, At8, Header;
    var flags: u16 := (if AnyCompressed(channels) then 1 else 0) + (if c.crcEnabled then 2 else 0);
    var h := Header(c, index, channels);
    HeaderSlices(c, index, channels);
    assert h[0..10][..8] == h[..8] && h[8] == h[0..10][8] && h[9] == h[0..10][9];
    assert forall k :: 40 <= k < 64 ==> h[k] == h[40..][k - 40];
    Field4(h, 26, index);
    Field8(h, 30, c.createdAtNs);
    Field2(h, 38, flags);
  }

  /** The twenty bytes in front of a payload. */
  lemma EnvelopeFields(c: Config, e: Entry)
    requires Framed(ToRec(c, e))
    ensures var s := Encode(ToRec(c, e));
            && |s| >= 20 && At4(s, 4) == |s| - 20
            && At4(s, 16) == (if c.crcEnabled then c.lib.crc32(s[..16] + s[20..]) else 0)
            && s[3] == (if e.Chunk? then 1 else 0) + (if c.crcEnabled then 2 else 0)
    ensures var s := Encode(ToRec(c, e));
            match e
            case Message(m) => s[0] == 3 && At2(s, 1) == m.ch && At8(s, 8) == m.ts && s[20..] == m.data
            case Chunk(ch, codec, msgs) => s[0] == 4 && At2(s, 1) == ch && At8(s, 8) == FirstTs(msgs) && s[20..] == ChunkPayload(c.lib, codec, msgs)
            case Control(op, ch, ts, payload) => s[0] == op && At2(s, 1) == ch && At8(s, 8) == ts && s[20..] == payload
  {
    hide LE, At2, At4, At8, ChunkPayload, FirstTs;
    var r := ToRec(c, e);
    var s := Encode(r);
    assert s[..|s|] == s;
    HeadFields(r, s);
    assert s[..16] == Head(r) && s[20..] == r.payload;
    Field2(s, 1, r.ch);
    Field4(s, 4, |r.payload|);
    Field8(s, 8, r.ts);
    Field4(s, 16, r.crc);
    StampedCrc(c, e);
  }

  lemma StampedCrc(c: Config, e: Entry)
    ensures var r := ToRec(c, e); r.crc == if c.crcEnabled then c.lib.crc32(Head(r) + r.payload) else 0
  {
    hide LE, ChunkPayload, FirstTs;
  }

  /** The last 32 bytes of a closed segment. */
  lemma FooterFields(lib: Library, indexOffset: u64, count: u64)
    ensures var t := Footer(lib, indexOffset, count);
            && |t| == 32 && t[..8] == [0x89, 0x52, 0x45, 0x43, 0x0D, 0x0A, 0x1A, 0x0A]
            && At8(t, 8) == indexOffset && At8(t, 16) == count && At4(t, 24) == lib.crc32(t[..24]) && t[28..] == [0, 0, 0, 0]
  {
    hide LE, At4, At8;
    var t, h := Footer(lib, indexOffset, count), FooterHead(indexOffset, count);
    assert t[..24] == h && t[24..28] == LE(lib.crc32(h), 4);
    assert t[..8] == h[..8] && t[8..16] == h[8..16] == LE(indexOffset, 8) && t[16..24] == h[16..24] == LE(count, 8);
    Field8(t, 8, indexOffset);
    Field8(t, 16, count);
    Field4(t, 24, lib.crc32(h));
  }

  // ----- payloads -----

  /** A chunk's payload, and one message of the buffer that was compressed. */
  lemma ChunkFields(lib: Library, codec: byte, msgs: seq<Msg>)
    requires |Inner(msgs)| < CHUNK_LIMIT
    ensures var p := ChunkPayload(lib, codec, msgs);
            |p| >= 9 && p[0] == codec && At4(p, 1) == |Inner(msgs)| && At4(p, 5) == |msgs| && p[9..] == Packed(lib, codec, Inner(msgs))
  {
    hide LE, At4, Inner, Packed;
    InnerCount(msgs);
    var p := ChunkPayload(lib, codec, msgs);
    assert p[1..5] == LE(|Inner(msgs)|, 4) && p[5..9] == LE(|msgs|, 4) && p[9..] == Packed(lib, codec, Inner(msgs));
    Field4(p, 1, |Inner(msgs)|);
    Field4(p, 5, |msgs|);
  }

  lemma InnerFields(m: Msg)
    requires |m.data| < 0x1_0000_0000
    ensures var s := InnerOne(m); At8(s, 0) == m.ts && At4(s, 8) == |m.data| && s[12..] == m.data
  {
    hide LE, At4, At8;
    var s := InnerOne(m);
    assert s[0..8] == LE(m.ts, 8) && s[8..12] == LE(|m.data|, 4);
    Field8(s, 0, m.ts);
    Field4(s, 8, |m.data|);
  }

  lemma {:induction false} EntryStands(points: seq<SeekPoint>, k: nat)
    requires k < |points|
    ensures StoredEntries(points)[18 * k..18 * k + 18] == StoredEntry(points[k])
    decreases k
  {
    hide StoredEntry;
    if k > 0 {
      EntryStands(points[1..], k - 1);
      assert StoredEntries(points)[18 * k..18 * k + 18] == StoredEntries(points[1..])[18 * (k - 1)..18 * (k - 1) + 18];
    }
  }

  /** The payload of an INDEX record: the number of points, then 18 bytes for each. */
  lemma IndexFields(points: seq<SeekPoint>, k: nat)
    requires k < |points| < 0x1_0000_0000 && points[k].offset <= U64_MAX
    ensures var s := StoredPoints(points);
            && |s| == 4 + 18 * |points| && At4(s, 0) == |points|
            && At2(s, 4 + 18 * k) == points[k].ch && At8(s, 6 + 18 * k) == points[k].ts && At8(s, 14 + 18 * k) == points[k].offset
  {
    hide LE, At2, At4, At8, StoredEntries;
    var s, at, p := StoredPoints(points), 4 + 18 * k, points[k];
    var one := StoredEntry(p);
    EntryStands(points, k);
    assert s[0..4] == LE(|points|, 4);
    assert s[at..at + 18] == one;
    assert one[..2] == LE(p.ch, 2) && one[2..10] == LE(p.ts, 8) && one[10..18] == LE(p.offset, 8);
    assert s[at..at + 2] == one[..2] && s[at + 2..at + 10] == one[2..10] && s[at + 10..at + 18] == one[10..18];
    Field4(s, 0, |points|);
    Field2(s, at, p.ch);
    Field8(s, at + 2, p.ts);
    Field8(s, at + 10, p.offset);
  }

  /** The payload of a channel definition. */
  lemma DefFields(d: ChannelDef)
    requires |d.name| < 0x1_0000 && |d.schema| < 0x1_0000 && |d.metadata| < 0x1_0000_0000
    ensures var s, n, k := StoredDef(d), |d.name|, |d.name| + |d.schema|;
            && |s| == 20 + k + |d.metadata|
            && At2(s, 0) == d.id && s[2] == d.layer && s[3] == d.compression && At4(s, 4) == d.chunkSize && At4(s, 8) == d.flushMs
            && At2(s, 12) == n && s[14..14 + n] == d.name
            && At2(s, 14 + n) == |d.schema| && s[16 + n..16 + k] == d.schema
            && At4(s, 16 + k) == |d.metadata| && s[20 + k..] == d.metadata
  {
    hide LE, At2, At4, StoredDef, Fixed;
    var s, n, k := StoredDef(d), |d.name|, |d.name| + |d.schema|;
    DefSlices(d);
    FixedFields(d, s);
    Field2(s, 12, n);
    Field2(s, 14 + n, |d.schema|);
    Field4(s, 16 + k, |d.metadata|);
  }

  lemma DefSlices(d: ChannelDef)
    requires |d.name| < 0x1_0000 && |d.schema| < 0x1_0000
    ensures var s, n, k := StoredDef(d), |d.name|, |d.name| + |d.schema|;
            && |s| == 20 + k + |d.metadata| && s[0..12] == Fixed(d)
            && s[12..14] == LE(n, 2) && s[14..14 + n] == d.name
            && s[14 + n..16 + n] == LE(|d.schema|, 2) && s[16 + n..16 + k] == d.schema
            && s[16 + k..20 + k] == LE(|d.metadata|, 4) && s[20 + k..] == d.metadata
  {
    hide LE, StoredDef, Fixed;
    var s, n, k := StoredDef(d), |d.name|, |d.name| + |d.schema|;
    var blob := LE(|d.metadata|, 4) + d.metadata;
    DefFront(d);
    Next(s, 14 + n, LE(|d.schema|, 2), d.schema + blob);
    Next(s, 16 + n, d.schema, blob);
    Next(s, 16 + k, LE(|d.metadata|, 4), d.metadata);
  }

  lemma DefFront(d: ChannelDef)
    requires |d.name| < 0x1_0000 && |d.schema| < 0x1_0000
    ensures var s, n := StoredDef(d), |d.name|;
            && |s| >= 14 + n && s[0..12] == Fixed(d) && s[12..14] == LE(n, 2) && s[14..14 + n] == d.name
            && s[14 + n..] == LE(|d.schema|, 2) + (d.schema + (LE(|d.metadata|, 4) + d.metadata))
  {
    hide LE, StoredDef, Fixed;
    var s, n := StoredDef(d), |d.name|;
    var rest := LE(|d.schema|, 2) + (d.schema + (LE(|d.metadata|, 4) + d.metadata));
    DefInPieces(d);
    Next(s, 0, Fixed(d), LE(n, 2) + (d.name + rest));
    Next(s, 12, LE(n, 2), d.name + rest);
    Next(s, 14, d.name, rest);
  }

  ghost function Fixed(d: ChannelDef): (s: bytes)
    ensures |s| == 12
  {
    LE(d.id, 2) + [d.layer, d.compression] + LE(d.chunkSize, 4) + LE(d.flushMs, 4)
  }

  lemma FixedFields(d: ChannelDef, s: bytes)
    requires |s| >= 12 && s[0..12] == Fixed(d)
    ensures At2(s, 0) == d.id && s[2] == d.layer && s[3] == d.compression && At4(s, 4) == d.chunkSize && At4(s, 8) == d.flushMs
  {
    hide LE, At2, At4;
    var t := s[0..12];
    assert s[0..2] == t[0..2] == LE(d.id, 2) && s[2] == t[2] && s[3] == t[3];
    assert s[4..8] == t[4..8] == LE(d.chunkSize, 4) && s[8..12] == t[8..12] == LE(d.flushMs, 4);
    Field2(s, 0, d.id);
    Field4(s, 4, d.chunkSize);
    Field4(s, 8, d.flushMs);
  }

  lemma DefInPieces(d: ChannelDef)
    requires |d.name| < 0x1_0000 && |d.schema| < 0x1_0000
    ensures StoredDef(d) ==
            Fixed(d) + (LE(|d.name|, 2) + (d.name + (LE(|d.schema|, 2) + (d.schema + (LE(|d.metadata|, 4) + d.metadata)))))
  {
    hide LE;
    var a, b, blob := LE(|d.name|, 2) + d.name, LE(|d.schema|, 2) + d.schema, LE(|d.metadata|, 4) + d.metadata;
    assert StoredDef(d) == ((Fixed(d) + a) + b) + blob;
    hide Fixed, StoredDef;
    Seqs.Regroup(Fixed(d) + a, b, blob);
    Seqs.Regroup(Fixed(d), a, b + blob);
    Seqs.Regroup(LE(|d.schema|, 2), d.schema, blob);
    Seqs.Regroup(LE(|d.name|, 2), d.name, b + blob);
  }

  /** The payload of an annotation. */
  lemma NoteFields(text: bytes, metadata: bytes)
    requires |text| < 0x1_0000 && |metadata| < 0x1_0000_0000
    ensures var s, n := StoredAnnotation(text, metadata), |text|;
            && |s| == 6 + n + |metadata| && At2(s, 0) == n && s[2..2 + n] == text && At4(s, 2 + n) == |metadata| && s[6 + n..] == metadata
  {
    hide LE, At2, At4;
    var s, n := StoredAnnotation(text, metadata), |text|;
    assert s[0..2] == LE(n, 2) && s[2..2 + n] == text && s[2 + n..6 + n] == LE(|metadata|, 4) && s[6 + n..] == metadata;
    Field2(s, 0, n);
    Field4(s, 2 + n, |metadata|);
  }

  /** The first record of a segment names the recorder's version and, in decimal, the segment. */
  lemma StartFields(c: Config, index: u32)
    ensures var e := StartEntry(c, index);
            && e.op == OP_SESSION_START && e.ts == c.createdAtNs
            && exists digits: bytes ::
                 && e.payload == Text("{\"recorder_version\":\"") + c.version + Text("\",\"segment_index\":") + (digits + Text("}"))
                 && Json.StoUll(Json.SkipBlanks([32] + (digits + Text("}")))) == index
  {
    assert Text("}")[0] == 125;
    hide Text, Digits;
    var digits := Digits(index);
    Json.DecimalReadsBack(index, Text("}"));
    Seqs.Regroup(Text("{\"recorder_version\":\"") + c.version + Text("\",\"segment_index\":"), digits, Text("}"));
  }

  /** The last record of a segment counts one record less than the footer, and says how long the data lasts. */
  lemma EndFields(es: seq<Entry>, start: u64, end: u64)
    requires |es| < U64_MAX
    ensures var p := EndEntry(es).payload;
            && EndEntry(es).op == OP_SESSION_END && |p| == 16 && At8(p, 0) == |es| + 1
            && (!Limits.HoldsData(es) ==> At8(p, 8) == 0 && EndEntry(es).ts == 0)
            && (Limits.StartsAt(es, start) && Limits.EndsAt(es, end) ==>
                  At8(p, 8) == (if end >= start then end - start else 0) && EndEntry(es).ts == end)
  {
    hide LE, At8, DataRange, Limits.StartsAt, Limits.EndsAt, Limits.HoldsData;
    var p := EndEntry(es).payload;
    var r := DataRange(es);
    assert p[0..8] == LE(|es| + 1, 8) && p[8..16] == LE(Duration(r), 8);
    Field8(p, 0, |es| + 1);
    Field8(p, 8, Duration(r));
    Limits.RangeOfEntries(es);
    if Limits.StartsAt(es, start) && Limits.EndsAt(es, end) {
      Limits.StartHolds(es, start);
      Limits.StartIsUnique(es, start, r.startNs);
      EndIsUnique(es, end, r.lastNs);
    }
  }

  lemma EndIsUnique(es: seq<Entry>, a: u64, b: u64)
    requires Limits.EndsAt(es, a) && Limits.EndsAt(es, b)
    ensures a == b
  {
  }

  // ----- where the footer points -----

  /** The offset in the footer is that of an INDEX record with this timestamp and payload. */
  ghost predicate PointsToIndex(file: bytes, ts: u64, payload: bytes) {
    && |file| >= 96
    && var at := At8(file, |file| - 24);
       && HEADER_SIZE <= at < |file| && !Stuck(file[at..])
       && Decode(file[at..]).op == OP_INDEX && Decode(file[at..]).ts == ts && Decode(file[at..]).payload == payload
  }

  lemma FooterPoints(lib: Library, front: bytes, index: Rec, rest: bytes, count: nat)
    requires |front| >= HEADER_SIZE && |front| <= U64_MAX && Framed(index) && index.op == OP_INDEX
    ensures PointsToIndex(front + Encode(index) + rest + Footer(lib, |front|, count), index.ts, index.payload)
  {
    hide LE, At8, Stuck, Decode, Encode;
    var t := Footer(lib, |front|, count);
    var file := front + Encode(index) + rest + t;
    assert file[|file| - 24..|file| - 16] == t[8..16] == LE(|front|, 8);
    Field8(file, |file| - 24, |front|);
    assert file[|front|..] == Encode(index) + (rest + t);
    DecodeOfEncode(index, rest + t);
  }

  /** In a closed segment the footer points at the INDEX record, which carries the time of the latest data. */
  lemma SealedPointsToIndex(c: Config, seg: Segment)
    requires Usable(c) && SoundSegment(seg) && |SealedFile(c, seg)| <= U64_MAX
    ensures PointsToIndex(SealedFile(c, seg), DataRange(seg.entries).lastNs, CutPoints(Points(c, seg.entries)))
  {
    hide Footer, Encode, CutPoints, Points, DataRange, Recs, EncodeAll, SoundEntries, PointsToIndex;
    var es := seg.entries;
    var index, end := ToRec(c, IndexEntry(c, es)), ToRec(c, EndEntry(es));
    var front := FileBytes(c, seg);
    BodyConcat(c, es, [IndexEntry(c, es)]);
    BodyConcat(c, es + [IndexEntry(c, es)], [EndEntry(es)]);
    BodyOfOne(c, IndexEntry(c, es));
    BodyOfOne(c, EndEntry(es));
    assert SealedFile(c, seg) == front + Encode(index) + Encode(end) + Footer(c.lib, |front|, |es| + 2);
    FooterPoints(c.lib, front, index, Encode(end), |es| + 2);
  }

  /** So it does in a recovered one. */
  lemma RecoveredPointsToIndex(lib: Library, file: bytes)
    requires Recoverable(file) && IndexFits(file) && |file| <= U64_MAX
    ensures PointsToIndex(Recovered(lib, file), Greatest(FileRecords(file)), StoredPoints(PointsOf(RECOVERY_INTERVAL, FileRecords(file))))
  {
    hide Footer, Encode, EncodeAll, Records, PointsOf, StoredPoints, IndexRecord, PointsToIndex, Greatest;
    var rs := FileRecords(file);
    var front := file[..HEADER_SIZE] + EncodeAll(rs);
    Walk(file[HEADER_SIZE..]);
    IndexTime(lib, rs);
    assert Recovered(lib, file) == front + Encode(IndexRecord(lib, rs)) + [] + Footer(lib, |front|, |rs| + 1);
    FooterPoints(lib, front, IndexRecord(lib, rs), [], |rs| + 1);
  }

  lemma IndexTime(lib: Library, rs: seq<Rec>)
    ensures IndexRecord(lib, rs).ts == Greatest(rs)
  {
    hide Greatest, PointsOf, StoredPoints;
  }
}
