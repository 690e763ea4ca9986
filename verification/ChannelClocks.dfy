/**
 * Reading by index when only each channel by itself is in time order, as with compressed channels,
 * whose chunks reach the file out of order: what a read visits, and which messages a seek jumps over.
 */
module ChannelClocks {
  import opened Bytes
  import opened Format
  import opened Outcomes
  import opened Routines
  import opened Stream
  import opened Index
  import opened Summary
  import opened Opening
  import opened Seeking
  import opened Playback
  import opened IndexedRead
  import Seqs

  // ----- the early stop, on any stream -----

  /** The messages in front of the first one behind the end time. */
  function UpTo(o: ReadOptions, ms: seq<Msg>): seq<Msg> {
    if ms == [] || Beyond(o, ms[0]) then [] else [ms[0]] + UpTo(o, ms[1..])
  }

  /** What the early stop leaves out. */
  function Behind(o: ReadOptions, ms: seq<Msg>): seq<Msg> {
    if ms == [] || Beyond(o, ms[0]) then ms else Behind(o, ms[1..])
  }

  lemma {:induction false} StopParts(o: ReadOptions, ms: seq<Msg>)
    ensures UpTo(o, ms) + Behind(o, ms) == ms
  {
    if ms != [] && !Beyond(o, ms[0]) {
      StopParts(o, ms[1..]);
      assert ms == [ms[0]] + ms[1..];
    }
  }

  /** On every stream, a read visits the filter of what stands in front of the first message behind the end. */
  lemma {:induction false} ScanStops(o: ReadOptions, go: seq<Msg> -> bool, done: seq<Msg>, ms: seq<Msg>)
    ensures Scan(o, go, done, ms) == Visited(go, done, Filter(o, UpTo(o, ms)))
    decreases |ms|
  {
    if ms != [] && !Beyond(o, ms[0]) {
      var m, rest := ms[0], UpTo(o, ms[1..]);
      assert ([m] + rest)[1..] == rest;
      if Wanted(o, m) {
        ScanStops(o, go, done + [m], ms[1..]);
        assert ([m] + Filter(o, rest))[1..] == Filter(o, rest);
      } else {
        ScanStops(o, go, done, ms[1..]);
        assert [] + Filter(o, rest) == Filter(o, rest);
      }
    }
  }

  // ----- the records a seek jumps over -----

  /** The records that end at or before an offset. */
  function InFront(rs: seq<Rec>, offset: nat): (front: seq<Rec>)
    ensures front <= rs
  {
    if rs == [] || OffsetOf(rs, |rs|) <= offset then rs else InFront(rs[..|rs| - 1], offset)
  }

  lemma {:induction false} InFrontOf(rs: seq<Rec>, i: nat)
    requires i <= |rs|
    ensures InFront(rs, OffsetOf(rs, i)) == rs[..i]
    decreases |rs|
  {
    hide EncodeAll;
    if i == |rs| {
      assert rs[..i] == rs;
    } else {
      var before := rs[..|rs| - 1];
      OffsetsGrow(rs, i, |rs|);
      assert before[..i] == rs[..i];
      InFrontOf(before, i);
    }
  }

  function OffsetSought(segs: seq<SegmentData>, channels: seq<u16>, target: u64): nat
    requires segs != []
    reads set i | 0 <= i < |segs| :: segs[i].idx
  {
    SeekOffset(segs[SeekSegment(segs, target)].idx.Points, channels, target).GetOr(HEADER_SIZE)
  }

  /** What a seek jumps over in the segment it goes to. */
  function Jumped(segs: seq<SegmentData>, channels: seq<u16>, target: u64): seq<Rec>
    requires segs != []
    reads set i | 0 <= i < |segs| :: segs[i].idx
  {
    InFront(SegRecords(segs, SeekSegment(segs, target)), OffsetSought(segs, channels, target))
  }

  /** The place sought is the start of a record, or the end of them, whatever the timestamps are. */
  lemma SoughtAtRecord(points: seq<SeekPoint>, rs: seq<Rec>, channels: seq<u16>, target: u64, offset: nat) returns (i: nat)
    requires Faithful(points, rs) && SeeksTo(points, channels, target, offset)
    ensures i <= |rs| && offset == OffsetOf(rs, i)
  {
    hide EncodeAll, PointsOf, Due;
    if forall c :: c in channels ==> NoneUpTo(points, c, target) {
      i := 0;
      StartOffset(rs);
    } else {
      var interval: u64 :| interval > 0 && multiset(points) == multiset(PointsOf(interval, rs));
      SameMembers(points, PointsOf(interval, rs));
      var p: SeekPoint :| p.ch in channels && Latest(points, p.ch, target, p) && offset == p.offset;
      i := PointsAreSound(interval, rs, p);
    }
  }

  ghost predicate AllIndexed(segs: seq<SegmentData>)
    reads set i | 0 <= i < |segs| :: segs[i].idx
  {
    forall i :: 0 <= i < |segs| ==> Indexed(segs[i])
  }

  /** Every session, seen from the place sought: earlier segments, what is jumped over, what is read. */
  lemma SoughtParts(segs: seq<SegmentData>, channels: seq<u16>, target: u64) returns (i: nat)
    requires AllIndexed(segs) && segs != []
    ensures var s := SeekSegment(segs, target); var rs := SegRecords(segs, s);
            && i <= |rs| && OffsetSought(segs, channels, target) == OffsetOf(rs, i) && Jumped(segs, channels, target) == rs[..i]
            && SoughtRecords(segs, channels, target) == rs[i..] + AllRecords(segs[s + 1..])
            && AllRecords(segs) == AllRecords(segs[..s]) + (Jumped(segs, channels, target) + SoughtRecords(segs, channels, target))
  {
    hide FileRecords, Records, From, EncodeAll, SeekOffset, Faithful, Sorted, SeeksTo, OffsetOf, InFront;
    var s := SeekSegment(segs, target);
    var rs, later := SegRecords(segs, s), AllRecords(segs[s + 1..]);
    AroundSegment(segs, s);
    OffsetsFit(segs[s]);
    SeekOffsetSeeks(segs[s].idx.Points, channels, target);
    i := SoughtAtRecord(segs[s].idx.Points, rs, channels, target, OffsetSought(segs, channels, target));
    InFrontOf(rs, i);
    RecordsFrom(segs[s].file, i);
    AllRecordsAre(segs[s + 1..]);
    assert rs == rs[..i] + rs[i..];
    Seqs.Regroup(rs[..i], rs[i..], later);
  }

  // ----- what a read visits, and when that is everything -----

  /** What a read by index leaves out of any session: what earlier segments hold, what it jumps over, what stands behind its stop. */
  function LeftOut(lib: Library, segs: seq<SegmentData>, channels: seq<u16>, o: ReadOptions): seq<Msg>
    requires segs != []
    reads set i | 0 <= i < |segs| :: segs[i].idx
  {
    Msgs(lib, AllRecords(segs[..SeekSegment(segs, o.startNs)])) + Msgs(lib, Jumped(segs, channels, o.startNs))
    + Behind(o, Msgs(lib, SoughtRecords(segs, channels, o.startNs)))
  }

  /** For every session with its indexes, in whatever order its messages stand: a read visits exactly the filter of the rest. */
  lemma ReadOfAny(lib: Library, segs: seq<SegmentData>, channels: seq<u16>, o: ReadOptions, go: seq<Msg> -> bool)
    requires AllIndexed(segs) && segs != [] && o.startNs > 0
    ensures var sought := Msgs(lib, SoughtRecords(segs, channels, o.startNs));
            && Scan(o, go, [], sought) == Visited(go, [], Filter(o, UpTo(o, sought)))
            && SessionMsgs(lib, FilesOf(segs)) ==
               Msgs(lib, AllRecords(segs[..SeekSegment(segs, o.startNs)])) + (Msgs(lib, Jumped(segs, channels, o.startNs)) + sought)
            && sought == UpTo(o, sought) + Behind(o, sought)
  {
    hide Indexed, SegRecords, FileRecords, SoughtRecords, Jumped, AllRecords, RecMsgs, UpTo, Behind, Visited, Filter, OffsetOf, OffsetSought, SeekSegment;
    var i := SoughtParts(segs, channels, o.startNs);
    var earlier, jumped, ahead := AllRecords(segs[..SeekSegment(segs, o.startNs)]), Jumped(segs, channels, o.startNs), SoughtRecords(segs, channels, o.startNs);
    ScanStops(o, go, [], Msgs(lib, ahead));
    StopParts(o, Msgs(lib, ahead));
    MsgsConcat(lib, earlier, jumped + ahead);
    MsgsConcat(lib, jumped, ahead);
    AllRecordsAre(segs);
  }

  lemma NoneLeft(o: ReadOptions, ms: seq<Msg>)
    ensures Filter(o, ms) == [] <==> forall m :: m in ms ==> !Wanted(o, m)
  {
    hide Wanted;
    FilterKeeps(o, ms);
    if forall m :: m in ms ==> !Wanted(o, m) {
      NoneWanted(o, ms);
    }
  }

  /** It is complete exactly when nothing the options ask for is left out. */
  lemma ReadOfAnyIsComplete(lib: Library, segs: seq<SegmentData>, channels: seq<u16>, o: ReadOptions)
    requires AllIndexed(segs) && segs != [] && o.startNs > 0
    ensures Scan(o, _ => true, [], Msgs(lib, SoughtRecords(segs, channels, o.startNs))) == Filter(o, SessionMsgs(lib, FilesOf(segs)))
            <==> forall m :: m in LeftOut(lib, segs, channels, o) ==> !Wanted(o, m)
  {
    hide AllIndexed, SoughtRecords, Jumped, AllRecords, UpTo, Behind, Scan, SeekSegment, Wanted, Msgs, SessionMsgs;
    ReadOfAny(lib, segs, channels, o, _ => true);
    var sought := Msgs(lib, SoughtRecords(segs, channels, o.startNs));
    var a, b, c, d := Msgs(lib, AllRecords(segs[..SeekSegment(segs, o.startNs)])), Msgs(lib, Jumped(segs, channels, o.startNs)), UpTo(o, sought), Behind(o, sought);
    FilterConcat(o, a, b + sought);
    FilterConcat(o, b, sought);
    FilterConcat(o, c, d);
    VisitsAll([], Filter(o, c));
    assert [] + Filter(o, c) == Filter(o, c);
    NoneLeft(o, a);
    NoneLeft(o, b);
    NoneLeft(o, d);
    Lengths(Filter(o, a), Filter(o, b), Filter(o, c), Filter(o, d));
    assert LeftOut(lib, segs, channels, o) == a + b + d;
  }

  lemma Lengths<T>(a: seq<T>, b: seq<T>, c: seq<T>, d: seq<T>)
    ensures c == a + (b + (c + d)) <==> a == [] && b == [] && d == []
  {
    var all := a + (b + (c + d));
    assert |all| == |a| + |b| + |c| + |d|;
    if a == [] && b == [] && d == [] {
      assert all == c;
    }
  }

  // ----- which messages a seek jumps over -----

  /** The messages of a record are on its channel, and none is earlier than the record. */
  ghost predicate Own(lib: Library, r: Rec) {
    forall m :: m in RecMsgs(lib, r) ==> HoldsData(r) && m.ch == r.ch && r.ts <= m.ts && (r.op == OP_DATA ==> m.ts == r.ts)
  }

  /** On one channel, the record b and its messages are no earlier than a and its messages. */
  ghost predicate Follows(lib: Library, a: Rec, b: Rec) {
    HoldsData(b) && a.ch == b.ch ==> (HoldsData(a) ==> a.ts <= b.ts) && forall m :: m in RecMsgs(lib, a) ==> m.ts <= b.ts
  }

  /** On every channel the messages rise from record to record, and every record carries the time of its first. */
  ghost predicate Timely(lib: Library, rs: seq<Rec>) {
    && (forall i :: 0 <= i < |rs| ==> Own(lib, rs[i]))
    && forall i, j :: 0 <= i < j < |rs| ==> Follows(lib, rs[i], rs[j])
  }

  /**
   * A message of a record that is jumped over lies behind the target exactly when its channel has no
   * point at or before the target. It ties with the target only inside a chunk that began earlier.
   */
  lemma JumpedMessage(lib: Library, points: seq<SeekPoint>, rs: seq<Rec>, channels: seq<u16>, target: u64, i: nat, k: nat, m: Msg)
    requires Faithful(points, rs) && Timely(lib, rs) && Listed(rs, channels)
    requires k < i <= |rs| && m in RecMsgs(lib, rs[k]) && SeeksTo(points, channels, target, OffsetOf(rs, i))
    ensures m.ts > target <==> NoneUpTo(points, m.ch, target)
    ensures m.ts == target ==> rs[k].ts < target && rs[k].op == OP_CHUNK
  {
    hide EncodeAll, PointsOf, Due, RecMsgs, OffsetOf;
    var c := rs[k].ch;
    assert Own(lib, rs[k]);
    assert RisesByChannel(rs) by {
      assert forall a, b :: 0 <= a < b < |rs| ==> Follows(lib, rs[a], rs[b]);
    }
    if points == [] {
      StartOffset(rs);
      OffsetsGrow(rs, 0, i);
      assert false;
    } else {
      var interval: u64 :| interval > 0 && multiset(points) == multiset(PointsOf(interval, rs));
      SameMembers(points, PointsOf(interval, rs));
      var q0 := CoveringPoint(interval, rs, k);
      if !NoneUpTo(points, c, target) {
        var q :| Latest(points, c, target, q) && OffsetOf(rs, i) <= q.offset;
        var j := PointsAreSound(interval, rs, q);
        if j < i {
          OffsetsGrow(rs, j, i);
        }
        assert Follows(lib, rs[k], rs[j]);
        if rs[k].ts == target {
          PointIsFirst(interval, rs, k, j);
        }
      }
    }
  }

  /**
   * Which messages at or after the target a seek loses in its segment: those of channels without a
   * point at or before it, and those that tie with it at the end of a chunk begun earlier.
   */
  lemma SeekLoses(lib: Library, segs: seq<SegmentData>, channels: seq<u16>, target: u64, m: Msg)
    requires AllIndexed(segs) && segs != []
    requires var rs := SegRecords(segs, SeekSegment(segs, target)); Timely(lib, rs) && Listed(rs, channels)
    requires m in Msgs(lib, Jumped(segs, channels, target))
    ensures m.ts > target <==> NoneUpTo(segs[SeekSegment(segs, target)].idx.Points, m.ch, target)
    ensures m.ts == target ==> exists r :: r in Jumped(segs, channels, target) && m in RecMsgs(lib, r) && r.ts < target && r.op == OP_CHUNK
  {
    hide FileRecords, RecMsgs, SoughtRecords, Jumped, AllRecords, OffsetOf, Timely, Listed, Faithful, SeekOffset, Sorted, NoneUpTo, SeeksTo;
    var s := SeekSegment(segs, target);
    var rs := SegRecords(segs, s);
    var i := SoughtParts(segs, channels, target);
    OffsetsFit(segs[s]);
    SeekOffsetSeeks(segs[s].idx.Points, channels, target);
    var k := MessageIn(lib, rs[..i], m);
    assert rs[..i][k] == rs[k];
    JumpedMessage(lib, segs[s].idx.Points, rs, channels, target, i, k, m);
  }

  lemma {:induction false} MessageIn(lib: Library, rs: seq<Rec>, m: Msg) returns (k: nat)
    requires m in Msgs(lib, rs)
    ensures k < |rs| && m in RecMsgs(lib, rs[k])
    decreases |rs|
  {
    hide RecMsgs;
    if m in RecMsgs(lib, rs[0]) {
      k := 0;
    } else {
      k := MessageIn(lib, rs[1..], m);
      k := k + 1;
    }
  }

  /** Every channel that is jumped over has a point at or before the target, and no chunk jumped over reaches up to it. */
  ghost predicate Covered(lib: Library, segs: seq<SegmentData>, channels: seq<u16>, target: u64)
    requires segs != []
    reads set i | 0 <= i < |segs| :: segs[i].idx
  {
    forall m :: m in Msgs(lib, Jumped(segs, channels, target)) ==>
      m.ts != target && !NoneUpTo(segs[SeekSegment(segs, target)].idx.Points, m.ch, target)
  }

  /** Then, and in full only then, no message jumped over is at or after the target. */
  lemma SeekLosesNothing(lib: Library, segs: seq<SegmentData>, channels: seq<u16>, target: u64)
    requires AllIndexed(segs) && segs != []
    requires var rs := SegRecords(segs, SeekSegment(segs, target)); Timely(lib, rs) && Listed(rs, channels)
    ensures Covered(lib, segs, channels, target) <==> forall m :: m in Msgs(lib, Jumped(segs, channels, target)) ==> m.ts < target
  {
    hide AllIndexed, SegRecords, SeekSegment, Timely, Listed, Jumped, Msgs, RecMsgs, NoneUpTo;
    forall m | m in Msgs(lib, Jumped(segs, channels, target))
      ensures m.ts > target <==> NoneUpTo(segs[SeekSegment(segs, target)].idx.Points, m.ch, target)
    {
      SeekLoses(lib, segs, channels, target, m);
    }
  }
}
