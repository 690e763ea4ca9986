/** How far apart seek points stand: at least the interval on every channel, and so how many there can be. */
module Spacing {
  import opened Bytes
  import opened Format
  import opened Routines
  import opened Stream
  import opened Index
  import opened Summary
  import opened Seeking
  import opened Recording
  import opened Conservation
  import opened Runs
  import opened RoundTrip
  import opened Rotation
  import Filling
  import opened Chronicle
  import opened Reopening
  import opened ChannelClocks
  import opened RecordedByChannel
  import Recorded

  /** Two points of one channel with none of that channel between them. */
  ghost predicate Consecutive(points: seq<SeekPoint>, i: nat, j: nat) {
    i < j < |points| && points[i].ch == points[j].ch && forall k :: i < k < j ==> points[k].ch != points[j].ch
  }

  /** Consecutive points of a channel are at least an interval apart. */
  ghost predicate Spaced(interval: u64, points: seq<SeekPoint>) {
    forall i: nat, j: nat :: Consecutive(points, i, j) ==> FarEnough(interval, points[i].ts, points[j].ts)
  }

  lemma AddKeepsSpaced(interval: u64, points: seq<SeekPoint>, p: SeekPoint)
    requires Spaced(interval, points)
    ensures Spaced(interval, AddIfDue(interval, points, p))
  {
    DueWhenRested(interval, points, p);
    hide AddIfDue, FarEnough, LastPoint;
    var n := |points|;
    if Rested(interval, points, p.ch, p.ts) {
      forall i: nat, j: nat | Consecutive(points + [p], i, j)
        ensures FarEnough(interval, (points + [p])[i].ts, (points + [p])[j].ts)
      {
        if j < n {
          InFront(points, p, i, j);
        } else {
          LastBefore(points, p, i);
        }
      }
    }
  }

  lemma InFront(points: seq<SeekPoint>, p: SeekPoint, i: nat, j: nat)
    requires j < |points| && Consecutive(points + [p], i, j)
    ensures Consecutive(points, i, j) && (points + [p])[i] == points[i] && (points + [p])[j] == points[j]
  {
    assert forall k: nat :: k < |points| ==> (points + [p])[k] == points[k];
  }

  lemma LastBefore(points: seq<SeekPoint>, p: SeekPoint, i: nat)
    requires Consecutive(points + [p], i, |points|)
    ensures LastPoint(points, p.ch, i) && (points + [p])[i] == points[i]
  {
    assert forall k: nat :: k < |points| ==> (points + [p])[k] == points[k];
  }

  /** The points of any sequence of records are spaced. */
  lemma {:induction false} PointsAreSpaced(interval: u64, rs: seq<Rec>)
    ensures Spaced(interval, PointsOf(interval, rs))
    decreases |rs|
  {
    hide EncodeAll, AddIfDue;
    if rs == [] {
    } else {
      hide Spaced;
      var before, r := rs[..|rs| - 1], rs[|rs| - 1];
      PointsAreSpaced(interval, before);
      AddKeepsSpaced(interval, PointsOf(interval, before), SeekPoint(r.ch, r.ts, HEADER_SIZE + |EncodeAll(before)|));
    }
  }

  // ----- how many points a channel can have -----

  /** The points of one channel, in order. */
  ghost function On(points: seq<SeekPoint>, ch: u16): seq<SeekPoint> {
    if points == [] then []
    else On(points[..|points| - 1], ch) + (if points[|points| - 1].ch == ch then [points[|points| - 1]] else [])
  }

  /** The points of a channel never go back in time. */
  ghost predicate InTime(points: seq<SeekPoint>, ch: u16) {
    forall i, j :: 0 <= i < j < |points| && points[i].ch == points[j].ch == ch ==> points[i].ts <= points[j].ts
  }

  lemma {:induction false} LastOfOn(points: seq<SeekPoint>, ch: u16)
    ensures On(points, ch) == [] ==> forall k :: 0 <= k < |points| ==> points[k].ch != ch
    ensures On(points, ch) != [] ==> exists k: nat :: k < |points| && LastPoint(points, ch, k) && points[k] == On(points, ch)[|On(points, ch)| - 1]
    decreases |points|
  {
    if points == [] {
    } else {
      var n := |points| - 1;
      assert points[n].ch == ch ==> LastPoint(points, ch, n);
      hide LastPoint;
      LastOfOn(points[..n], ch);
      if points[n].ch == ch {
        assert On(points, ch)[|On(points, ch)| - 1] == points[n];
      } else {
        assert On(points, ch) == On(points[..n], ch);
        if On(points[..n], ch) != [] {
          var k: nat :| k < n && LastPoint(points[..n], ch, k) && points[..n][k] == On(points[..n], ch)[|On(points[..n], ch)| - 1];
          LastPointOn(points, ch, k);
        }
      }
    }
  }

  lemma LastPointOn(points: seq<SeekPoint>, ch: u16, k: nat)
    requires points != [] && points[|points| - 1].ch != ch && LastPoint(points[..|points| - 1], ch, k)
    ensures LastPoint(points, ch, k)
  {
    var n := |points| - 1;
    assert forall j: nat :: j < n ==> points[..n][j] == points[j];
  }

  lemma PrefixSpaced(interval: u64, points: seq<SeekPoint>, n: nat, ch: u16)
    requires n <= |points| && Spaced(interval, points) && InTime(points, ch)
    ensures Spaced(interval, points[..n]) && InTime(points[..n], ch)
  {
    hide FarEnough;
    forall i: nat, j: nat | Consecutive(points[..n], i, j)
      ensures FarEnough(interval, points[..n][i].ts, points[..n][j].ts)
    {
      assert Consecutive(points, i, j);
    }
  }

  lemma FarInTime(interval: u64, earlier: u64, later: u64)
    requires earlier <= later && FarEnough(interval, earlier, later)
    ensures later - earlier >= interval
  {
  }

  lemma OneMore(n: nat, interval: nat, first: int, previous: int, last: int)
    requires n > 0 && (n - 1) * interval <= previous - first && last - previous >= interval
    ensures n * interval <= last - first
  {
    assert n * interval == (n - 1) * interval + interval;
  }

  lemma StepApart(interval: u64, points: seq<SeekPoint>, ch: u16, k: nat)
    requires Spaced(interval, points) && InTime(points, ch) && points != [] && points[|points| - 1].ch == ch
    requires LastPoint(points[..|points| - 1], ch, k)
    ensures points[|points| - 1].ts - points[k].ts >= interval
  {
    hide FarEnough;
    var n := |points| - 1;
    assert forall j: nat :: j < n ==> points[..n][j] == points[j];
    assert Consecutive(points, k, n);
    FarInTime(interval, points[k].ts, points[n].ts);
  }

  /** On a channel in time order every further point takes an interval more. */
  lemma {:induction false} PointsTakeTime(interval: u64, points: seq<SeekPoint>, ch: u16)
    requires Spaced(interval, points) && InTime(points, ch)
    ensures var on := On(points, ch); on != [] ==> (|on| - 1) * interval <= on[|on| - 1].ts - on[0].ts
    decreases |points|
  {
    hide Spaced, InTime, LastPoint;
    if points == [] {
    } else {
      var n := |points| - 1;
      var before := points[..n];
      PrefixSpaced(interval, points, n, ch);
      PointsTakeTime(interval, before, ch);
      LastOfOn(before, ch);
      var earlier := On(before, ch);
      if points[n].ch != ch {
        assert On(points, ch) == earlier;
      } else if earlier == [] {
        assert On(points, ch) == [points[n]];
      } else {
        var k: nat :| k < n && LastPoint(before, ch, k) && before[k] == earlier[|earlier| - 1];
        StepApart(interval, points, ch, k);
        OneMore(|earlier|, interval, earlier[0].ts, points[k].ts, points[n].ts);
        assert On(points, ch) == earlier + [points[n]];
      }
    }
  }

  lemma {:induction false} OnIsMember(points: seq<SeekPoint>, ch: u16)
    ensures forall p :: p in On(points, ch) ==> p in points && p.ch == ch
    decreases |points|
  {
    if points != [] {
      OnIsMember(points[..|points| - 1], ch);
    }
  }

  lemma AddInTime(points: seq<SeekPoint>, p: SeekPoint, ch: u16)
    requires InTime(points, ch) && forall q :: q in points && q.ch == p.ch ==> q.ts <= p.ts
    ensures InTime(points + [p], ch)
  {
  }

  lemma PrefixRises(rs: seq<Rec>, n: nat)
    requires RisesByChannel(rs) && n <= |rs|
    ensures RisesByChannel(rs[..n])
  {
    hide HoldsData;
    assert forall i :: 0 <= i < n ==> rs[..n][i] == rs[i];
  }

  lemma NoneLater(interval: u64, before: seq<Rec>, r: Rec, q: SeekPoint)
    requires RisesByChannel(before + [r]) && HoldsData(r) && q in PointsOf(interval, before) && q.ch == r.ch
    ensures q.ts <= r.ts
  {
    hide HoldsData, PointsOf, DueAt;
    var k := PointsAreSound(interval, before, q);
    assert (before + [r])[k] == before[k] && (before + [r])[|before|] == r;
  }

  /** Points of records in time order are in time order. */
  lemma {:induction false} PointsInTime(interval: u64, rs: seq<Rec>, ch: u16)
    requires RisesByChannel(rs)
    ensures InTime(PointsOf(interval, rs), ch)
    decreases |rs|
  {
    hide EncodeAll, RisesByChannel, Due, Rested, HoldsData;
    if rs == [] {
    } else {
      hide InTime;
      var before, r := rs[..|rs| - 1], rs[|rs| - 1];
      assert before + [r] == rs;
      PrefixRises(rs, |rs| - 1);
      PointsInTime(interval, before, ch);
      var points, p := PointsOf(interval, before), SeekPoint(r.ch, r.ts, HEADER_SIZE + |EncodeAll(before)|);
      if HoldsData(r) {
        forall q | q in points && q.ch == p.ch
          ensures q.ts <= p.ts
        {
          NoneLater(interval, before, r, q);
        }
        AddInTime(points, p, ch);
      }
    }
  }

  lemma {:induction false} MoreTimes(a: nat, b: nat, k: nat)
    requires a <= b
    ensures a * k <= b * k
    decreases b - a
  {
    if a < b {
      MoreTimes(a, b - 1, k);
      assert b * k == (b - 1) * k + k;
    }
  }

  lemma UpToNext(interval: u64, span: nat)
    requires interval > 0
    ensures span < (span / interval + 1) * interval
  {
    var q := span / interval;
    assert (q + 1) * interval == q * interval + interval;
  }

  lemma TooMany(n: nat, interval: u64, span: nat)
    requires interval > 0 && n > span / interval
    ensures n * interval > span
  {
    UpToNext(interval, span);
    MoreTimes(span / interval + 1, n, interval);
  }

  lemma AtMost(n: nat, interval: u64, span: nat)
    requires interval > 0 && n > 0 && (n - 1) * interval <= span
    ensures n <= 1 + span / interval
  {
    if n - 1 > span / interval {
      TooMany(n - 1, interval, span);
    }
  }

  /** The data records of the channel lie between two times. */
  ghost predicate Within(rs: seq<Rec>, ch: u16, lo: u64, hi: u64) {
    forall i :: 0 <= i < |rs| && HoldsData(rs[i]) && rs[i].ch == ch ==> lo <= rs[i].ts <= hi
  }

  /** A channel in time order has at most one point for each interval of its span, and one more. */
  lemma PointsPerChannel(interval: u64, rs: seq<Rec>, ch: u16, lo: u64, hi: u64)
    requires interval > 0 && RisesByChannel(rs) && Within(rs, ch, lo, hi) && lo <= hi
    ensures |On(PointsOf(interval, rs), ch)| <= 1 + (hi - lo) / interval
  {
    hide PointsOf, InTime, Spaced, EncodeAll, RisesByChannel;
    var points := PointsOf(interval, rs);
    var on := On(points, ch);
    PointsAreSpaced(interval, rs);
    PointsInTime(interval, rs, ch);
    PointsTakeTime(interval, points, ch);
    OnIsMember(points, ch);
    if on != [] {
      var i := PointsAreSound(interval, rs, on[0]);
      var j := PointsAreSound(interval, rs, on[|on| - 1]);
      AtMost(|on|, interval, hi - lo);
    }
  }

  // ----- all channels together -----

  /** The number of points on the channels below n. */
  ghost function Below(points: seq<SeekPoint>, n: nat): nat
    requires n <= 0x1_0000
  {
    if n == 0 then 0 else Below(points, n - 1) + |On(points, n - 1)|
  }

  lemma {:induction false} BelowSnoc(points: seq<SeekPoint>, p: SeekPoint, n: nat)
    requires n <= 0x1_0000
    ensures Below(points + [p], n) == Below(points, n) + if p.ch < n then 1 else 0
    decreases n
  {
    if n > 0 {
      assert (points + [p])[..|points|] == points;
      BelowSnoc(points, p, n - 1);
    }
  }

  lemma {:induction false} NoneBelow(n: nat)
    requires n <= 0x1_0000
    ensures Below([], n) == 0
    decreases n
  {
    if n > 0 {
      NoneBelow(n - 1);
    }
  }

  lemma {:induction false} AllBelow(points: seq<SeekPoint>, n: nat)
    requires n <= 0x1_0000 && forall p :: p in points ==> p.ch < n
    ensures Below(points, n) == |points|
    decreases |points|
  {
    hide Below;
    if points == [] {
      NoneBelow(n);
    } else {
      var k := |points| - 1;
      assert points == points[..k] + [points[k]];
      AllBelow(points[..k], n);
      BelowSnoc(points[..k], points[k], n);
    }
  }

  lemma {:induction false} BelowBound(points: seq<SeekPoint>, n: nat, most: nat)
    requires n <= 0x1_0000 && forall ch: u16 :: ch < n ==> |On(points, ch)| <= most
    ensures Below(points, n) <= n * most
    decreases n
  {
    if n > 0 {
      BelowBound(points, n - 1, most);
      assert n * most == (n - 1) * most + most;
    }
  }

  /** Channels in time order together have at most so many points. */
  lemma PointsAltogether(interval: u64, rs: seq<Rec>, n: nat, lo: u64, hi: u64)
    requires interval > 0 && RisesByChannel(rs) && lo <= hi && n <= 0x1_0000
    requires forall i :: 0 <= i < |rs| && HoldsData(rs[i]) ==> rs[i].ch < n && lo <= rs[i].ts <= hi
    ensures |PointsOf(interval, rs)| <= n * (1 + (hi - lo) / interval)
  {
    hide PointsOf, EncodeAll, RisesByChannel, On, Below;
    var points := PointsOf(interval, rs);
    forall ch: u16 | ch < n
      ensures |On(points, ch)| <= 1 + (hi - lo) / interval
    {
      PointsPerChannel(interval, rs, ch, lo, hi);
    }
    forall p | p in points
      ensures p.ch < n
    {
      var i := PointsAreSound(interval, rs, p);
    }
    AllBelow(points, n);
    BelowBound(points, n, 1 + (hi - lo) / interval);
  }

  // ----- recorded segments -----

  lemma TimelyRises(lib: Library, rs: seq<Rec>)
    requires Timely(lib, rs)
    ensures RisesByChannel(rs)
  {
    hide RecMsgs, HoldsData;
    forall i, j | 0 <= i < j < |rs| && HoldsData(rs[i]) && HoldsData(rs[j]) && rs[i].ch == rs[j].ch
      ensures rs[i].ts <= rs[j].ts
    {
      assert Follows(lib, rs[i], rs[j]);
    }
  }

  /** A recorded segment whose channels are each in time order has few points for its span. */
  lemma SegmentPoints(c: Config, seg: Segment, n: nat, lo: u64, hi: u64)
    requires Usable(c) && SoundSegment(seg) && AllCompress(c, seg.entries) && RisesOn(Content(seg.entries))
    requires c.intervalNs > 0 && n <= 0x1_0000 && lo <= hi
    requires forall m :: m in Content(seg.entries) ==> m.ch < n && lo <= m.ts <= hi
    ensures |Points(c, seg.entries)| <= n * (1 + (hi - lo) / c.intervalNs)
  {
    hide Usable, SoundEntries, AllCompress, Recs, Content, RisesOn, Timely, PointsOf, Points, HoldsData, EntryMsgs, RecMsgs,
      RisesByChannel, DataRange, Least;
    var es := seg.entries;
    var rs := Recs(c, es);
    InvertsOf(c);
    TimelyRecs(c, es);
    TimelyRises(c.lib, rs);
    Recorded.PointsAgree(c, es);
    forall i | 0 <= i < |rs| && HoldsData(rs[i])
      ensures rs[i].ch < n && lo <= rs[i].ts <= hi
    {
      OneOf(c, es, i);
      InContent(es, i, EntryMsgs(es[i])[0]);
    }
    PointsAltogether(c.intervalNs, rs, n, lo, hi);
  }

  lemma PlainCompresses(c: Config, es: seq<Entry>)
    requires NoChunks(es)
    ensures AllCompress(c, es)
  {
    hide Compress;
  }

  /** What is in a closed segment was accepted: it rises where the run does, on channels the run knows. */
  lemma AcceptedSegment(c: Config, calls: seq<Call>, i: nat)
    requires Usable(c) && |c.sessionId| == 16 && AllAllowed(c, Opened(c), calls) && RisesOn(Accepted(c, Opened(c), calls))
    requires i < |Closing(c, Run(c, Opened(c), calls))|
    ensures var L := Run(c, Opened(c), calls);
            var seg := Closing(c, L)[i];
            && SoundSegment(seg) && RisesOn(Content(seg.entries))
            && forall m :: m in Content(seg.entries) ==> m.ch < |L.channels|
  {
    hide AllAllowed, Accepted, Opened, FlushAll, Only, RisesOn, SealedFile, Usable, Good, Settled, SoundSegment, OnDisk, ClosedContent,
      Content, Run, Closing, Sealed, Written;
    OpenedIsShaped(c);
    var L := Run(c, Opened(c), calls);
    var closed := Closing(c, L);
    ClosingLog(c, calls);
    SameOnEvery(ClosedContent(closed), Accepted(c, Opened(c), calls));
    Recorded.AcceptedOnKnown(c, Opened(c), calls);
    ContentOf(closed, i);
    RisesPart(ClosedContent(closed[..i]), Content(closed[i].entries), ClosedContent(closed[i + 1..]));
  }

  /**
   * The size bound where every channel is in time order: the index takes 18 bytes for each channel
   * and interval of the segment's span.
   */
  lemma SegmentsKeepToSizeInTime(c: Config, defines: seq<Call>, writes: seq<Call>, i: nat)
    requires |c.sessionId| == 16 && PlainRun(c, defines, writes) && c.maxBytes > 0 && c.intervalNs > 0
    requires RisesOn(Accepted(c, Opened(c), defines + writes))
    requires i < |Closing(c, Run(c, Opened(c), defines + writes))|
    requires |Content(Closing(c, Run(c, Opened(c), defines + writes))[i].entries)| >= 2
    ensures var L := Run(c, Opened(c), defines + writes);
            var seg := Closing(c, L)[i];
            var r := DataRange(seg.entries);
            && r.startNs <= r.lastNs
            && |SealedFile(c, seg)| <= c.maxBytes + 4 + ENTRY_SIZE * (|L.channels| * (1 + (r.lastNs - r.startNs) / c.intervalNs))
  {
    hide PlainRun, AllAllowed, Accepted, Usable, Opened, Run, Closing, Content, DataRange, SealedFile, Points, RisesOn, SoundSegment,
      NoChunks, AllCompress;
    var calls := defines + writes;
    OpenedIsShaped(c);
    var L := Run(c, Opened(c), calls);
    var seg := Closing(c, L)[i];
    PlainAllowed(c, defines, writes);
    AcceptedSegment(c, calls, i);
    Filling.PlainSegments(c, defines, writes);
    assert seg in Closing(c, L);
    PlainCompresses(c, seg.entries);
    RangeIsExact(seg.entries);
    assert Content(seg.entries)[0] in Content(seg.entries);
    var r := DataRange(seg.entries);
    SegmentPoints(c, seg, |L.channels|, r.startNs, r.lastNs);
    SegmentsKeepToSize(c, defines, writes, i);
  }

  lemma PlainAllowed(c: Config, defines: seq<Call>, writes: seq<Call>)
    requires |c.sessionId| == 16 && PlainRun(c, defines, writes)
    ensures Usable(c) && AllAllowed(c, Opened(c), defines + writes) && |Run(c, Opened(c), defines + writes).channels| <= 0x1_0000
  {
  }
}
