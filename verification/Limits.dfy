/** When a segment is full, with the limits written out, and what a single call does about it. */
module Limits {
  import opened Bytes
  import opened Format
  import opened Stream
  import opened Recording
  import opened Runs

  // ----- what a segment's range says of its entries -----

  /** A message's or a chunk's entry is in the segment. */
  ghost predicate HoldsData(es: seq<Entry>) { exists k :: 0 <= k < |es| && !es[k].Control? }

  /** The least first timestamp of the data entries. */
  ghost predicate StartsAt(es: seq<Entry>, ts: u64) {
    && (exists k :: 0 <= k < |es| && !es[k].Control? && FirstTs(EntryMsgs(es[k])) == ts)
    && forall k :: 0 <= k < |es| && !es[k].Control? ==> ts <= FirstTs(EntryMsgs(es[k]))
  }

  /** The greatest last timestamp of the data entries. */
  ghost predicate EndsAt(es: seq<Entry>, ts: u64) {
    && (exists k :: 0 <= k < |es| && !es[k].Control? && LastTs(EntryMsgs(es[k])) == ts)
    && forall k :: 0 <= k < |es| && !es[k].Control? ==> LastTs(EntryMsgs(es[k])) <= ts
  }

  /** With chunks too, the range is where the data entries start and end. */
  lemma {:induction false} RangeOfEntries(es: seq<Entry>)
    ensures DataRange(es).hasData <==> HoldsData(es)
    ensures DataRange(es).hasData ==> StartsAt(es, DataRange(es).startNs) && EndsAt(es, DataRange(es).lastNs)
    ensures !DataRange(es).hasData ==> DataRange(es).startNs == DataRange(es).lastNs == 0
    decreases |es|
  {
    hide FirstTs, LastTs, EntryMsgs;
    if es != [] {
      var n := |es| - 1;
      var before := es[..n];
      RangeOfEntries(before);
      assert forall k :: 0 <= k < n ==> es[k] == before[k];
      assert !es[n].Control? ==> HoldsData(es);
      if DataRange(before).hasData {
        var i :| 0 <= i < |before| && !before[i].Control? && FirstTs(EntryMsgs(before[i])) == DataRange(before).startNs;
        var j :| 0 <= j < |before| && !before[j].Control? && LastTs(EntryMsgs(before[j])) == DataRange(before).lastNs;
        assert es[i] == before[i] && es[j] == before[j];
      }
    }
  }

  lemma StartIsUnique(es: seq<Entry>, a: u64, b: u64)
    requires StartsAt(es, a) && StartsAt(es, b)
    ensures a == b
  {
  }

  // ----- full segments -----

  /** With the entry the file and what closing it takes, 88 bytes, would pass the size limit. */
  ghost predicate TooLarge(c: Config, seg: Segment, e: Entry) {
    c.maxBytes > 0 && |FileBytes(c, seg)| + |Encode(ToRec(c, e))| + 88 > c.maxBytes
  }

  /** The entry is a whole duration later than the segment's data, which starts later than 0. */
  ghost predicate TooLate(c: Config, seg: Segment, e: Entry) {
    && c.maxDurationNs > 0
    && exists start: u64 :: StartsAt(seg.entries, start) && 0 < start && start + c.maxDurationNs <= FirstTs(EntryMsgs(e))
  }

  ghost predicate Full(c: Config, seg: Segment, e: Entry) { TooLarge(c, seg, e) || TooLate(c, seg, e) }

  lemma NeedsRotationIsFull(c: Config, seg: Segment, e: Entry)
    ensures NeedsRotation(c, seg, FirstTs(EntryMsgs(e)), |Encode(ToRec(c, e))| + CLOSING_SIZE) <==> Full(c, seg, e)
  {
    hide DataRange, StartsAt, FileBytes, ToRec, Encode, FirstTs, EntryMsgs;
    RangeOfEntries(seg.entries);
    if TooLate(c, seg, e) {
      var start: u64 :| StartsAt(seg.entries, start) && 0 < start && start + c.maxDurationNs <= FirstTs(EntryMsgs(e));
      StartHolds(seg.entries, start);
      StartIsUnique(seg.entries, start, DataRange(seg.entries).startNs);
    }
  }

  lemma StartHolds(es: seq<Entry>, start: u64)
    requires StartsAt(es, start)
    ensures HoldsData(es)
  {
  }

  lemma MessageFirst(c: Config, m: Msg)
    ensures FirstTs(EntryMsgs(Message(m))) == m.ts && |Encode(ToRec(c, Message(m)))| == ENVELOPE_SIZE + |m.data|
  {
  }

  lemma ChunkFirst(c: Config, e: Entry)
    requires e.Chunk?
    ensures FirstTs(EntryMsgs(e)) == FirstTs(e.msgs)
    ensures |Encode(ToRec(c, e))| == ENVELOPE_SIZE + |ChunkPayload(c.lib, e.codec, e.msgs)|
  {
    hide ChunkPayload;
  }

  // ----- one call -----

  /** A write on an uncompressed channel closes the segment if and only if it is full; otherwise it only adds its record. */
  lemma DirectCloses(c: Config, L: Log, m: Msg)
    requires Shaped(c, L)
    ensures var r := WriteDirect(c, L, m);
            if Full(c, L.cur, Message(m)) then |r.closed| > |L.closed| else r == Append(L, Message(m))
  {
    hide NeedsRotation, FlushAll, Fresh, FirstTs, EntryMsgs, ToRec, Full;
    MessageFirst(c, m);
    NeedsRotationIsFull(c, L.cur, Message(m));
    FlushClosesFrom(c, L, 0);
    AllIsFromFirst(c, L);
  }

  lemma AllIsFromFirst(c: Config, L: Log)
    requires Shaped(c, L)
    ensures FlushAll(c, L) == FlushFrom(c, L, 0)
  {
  }

  lemma {:induction false} FlushClosesFrom(c: Config, L: Log, ch: nat)
    requires Shaped(c, L) && ch <= |L.pending|
    ensures |FlushFrom(c, L, ch).closed| >= |L.closed|
    decreases |L.pending| - ch
  {
    hide Refused, PendingChunk, Fresh;
    if ch < |L.pending| {
      FlushClosesFrom(c, FlushOne(c, L, ch), ch + 1);
    }
  }

  /** The flush callback asks for a new segment if and only if this one holds data and is full for the chunk. */
  lemma RefusedWhenFull(c: Config, L: Log, e: Entry)
    requires e.Chunk?
    ensures Refused(c, L, e) <==> !c.singleFile && HoldsData(L.cur.entries) && Full(c, L.cur, e)
  {
    hide NeedsRotation, DataRange, FirstTs, EntryMsgs, ToRec, Full, ChunkPayload, HoldsData;
    RangeOfEntries(L.cur.entries);
    ChunkFirst(c, e);
    NeedsRotationIsFull(c, L.cur, e);
  }

  /** Flushing a chunk closes at most the current segment, and that if and only if it holds data and is full. */
  lemma FlushCloses(c: Config, L: Log, ch: nat)
    requires Shaped(c, L) && ch < |L.pending| && L.pending[ch] != []
    ensures var e := Chunk(ch, L.channels[ch].compression, L.pending[ch]);
            var r := FlushOne(c, L, ch);
            if !c.singleFile && HoldsData(L.cur.entries) && Full(c, L.cur, e)
            then r.closed == L.closed + [L.cur] && r.cur.entries == Fresh(c, SegmentNumber(|L.closed| + 1), L.channels).entries + [e]
            else r.closed == L.closed && r.cur.entries == L.cur.entries + [e]
  {
    hide Refused, Fresh, Full, HoldsData;
    RefusedWhenFull(c, L, PendingChunk(L, ch));
  }
}
