/** Seeking: what the points of an index mean, where a seek lands, and that nothing wanted lies before that place. */
module Seeking {
  import opened Bytes
  import opened Format
  import opened Outcomes
  import opened Stream
  import opened Index
  import opened Summary
  import Seqs

  // ----- what a point means -----

  /** The file offset of record i. */
  function OffsetOf(rs: seq<Rec>, i: nat): nat
    requires i <= |rs|
  {
    HEADER_SIZE + |EncodeAll(rs[..i])|
  }

  /** p names record i, which holds data. */
  ghost predicate Marks(rs: seq<Rec>, i: nat, p: SeekPoint) {
    i < |rs| && HoldsData(rs[i]) && p == SeekPoint(rs[i].ch, rs[i].ts, OffsetOf(rs, i))
  }

  /** When the walk reached record i, its channel's last point was at least an interval back. */
  ghost predicate DueAt(interval: u64, rs: seq<Rec>, i: nat)
    requires i < |rs|
  {
    Rested(interval, PointsOf(interval, rs[..i]), rs[i].ch, rs[i].ts)
  }

  lemma PrefixMarks(rs: seq<Rec>, i: nat, p: SeekPoint, interval: u64)
    requires i + 1 < |rs|
    ensures Marks(rs[..|rs| - 1], i, p) == Marks(rs, i, p)
    ensures DueAt(interval, rs[..|rs| - 1], i) == DueAt(interval, rs, i)
  {
    hide EncodeAll, PointsOf, Rested;
    assert rs[..|rs| - 1][..i] == rs[..i];
  }

  /** Every point names the start of a data record, with its channel and timestamp, and that record was due. */
  lemma {:induction false} PointsAreSound(interval: u64, rs: seq<Rec>, p: SeekPoint) returns (i: nat)
    requires p in PointsOf(interval, rs)
    ensures Marks(rs, i, p) && DueAt(interval, rs, i)
    decreases |rs|
  {
    hide EncodeAll, Due, Rested;
    var n := |rs| - 1;
    if p in PointsOf(interval, rs[..n]) {
      i := PointsAreSound(interval, rs[..n], p);
      PrefixMarks(rs, i, p, interval);
    } else {
      i := n;
      DueWhenRested(interval, PointsOf(interval, rs[..n]), p);
    }
  }

  lemma {:induction false} PointsGrow(interval: u64, rs: seq<Rec>, k: nat)
    requires k <= |rs|
    ensures PointsOf(interval, rs[..k]) <= PointsOf(interval, rs)
    decreases |rs|
  {
    hide EncodeAll, Due;
    if k == |rs| {
      assert rs[..k] == rs;
    } else {
      PointsGrow(interval, rs[..|rs| - 1], k);
      assert rs[..|rs| - 1][..k] == rs[..k];
    }
  }

  lemma {:induction false} LastOnIsMember(points: seq<SeekPoint>, ch: u16)
    ensures LastOn(points, ch).Some? ==> exists p :: p in points && p.ch == ch && p.ts == LastOn(points, ch).value
  {
    if points != [] && points[|points| - 1].ch != ch {
      LastOnIsMember(points[..|points| - 1], ch);
    }
  }

  /**
   * Every data record has a latest point on its channel at or before it: its own, or one less than
   * an interval older (in 64-bit arithmetic).
   */
  lemma PointsCover(interval: u64, rs: seq<Rec>, i: nat)
    requires i < |rs| && HoldsData(rs[i])
    ensures PointsOf(interval, rs[..i + 1]) <= PointsOf(interval, rs)
    ensures var last := LastOn(PointsOf(interval, rs[..i + 1]), rs[i].ch);
            last.Some? && (last.value == rs[i].ts || Elapsed(rs[i].ts, last.value) < interval)
  {
    hide EncodeAll;
    PointsGrow(interval, rs, i + 1);
    assert rs[..i + 1] == rs[..i] + [rs[i]];
    PointsSnoc(interval, rs[..i], rs[i]);
    var before := PointsOf(interval, rs[..i]);
    var p := SeekPoint(rs[i].ch, rs[i].ts, OffsetOf(rs, i));
    assert (before + [p])[..|before|] == before;
  }

  // ----- rising timestamps -----

  /** The timestamps of data records never decrease. */
  ghost predicate Rising(rs: seq<Rec>) {
    forall i, j :: 0 <= i < j < |rs| && HoldsData(rs[i]) && HoldsData(rs[j]) ==> rs[i].ts <= rs[j].ts
  }

  /** On every channel by itself they never do. */
  ghost predicate RisesByChannel(rs: seq<Rec>) {
    forall i, j :: 0 <= i < j < |rs| && HoldsData(rs[i]) && HoldsData(rs[j]) && rs[i].ch == rs[j].ch ==> rs[i].ts <= rs[j].ts
  }

  /** While a channel repeats a timestamp, its latest point stays less than an interval back. */
  lemma {:induction false} RepeatsAreNotDue(interval: u64, rs: seq<Rec>, i: nat, j: nat)
    requires interval > 0 && i < j <= |rs| && HoldsData(rs[i])
    requires forall k :: i < k < j && HoldsData(rs[k]) && rs[k].ch == rs[i].ch ==> rs[k].ts == rs[i].ts
    ensures var last := LastOn(PointsOf(interval, rs[..j]), rs[i].ch);
            last.Some? && Elapsed(rs[i].ts, last.value) < interval
    decreases j
  {
    hide EncodeAll;
    if j == i + 1 {
      PointsCover(interval, rs, i);
    } else {
      var k := j - 1;
      RepeatsAreNotDue(interval, rs, i, k);
      assert rs[..j] == rs[..k] + [rs[k]];
      PointsSnoc(interval, rs[..k], rs[k]);
      LastOnSnoc(PointsOf(interval, rs[..k]), SeekPoint(rs[k].ch, rs[k].ts, OffsetOf(rs, k)), rs[i].ch);
    }
  }

  lemma LastOnSnoc(points: seq<SeekPoint>, p: SeekPoint, ch: u16)
    ensures LastOn(points + [p], ch) == if p.ch == ch then Some(p.ts) else LastOn(points, ch)
  {
    assert (points + [p])[..|points|] == points;
  }

  /** Among equal timestamps of a channel only the first record can have a point. */
  lemma PointIsFirst(interval: u64, rs: seq<Rec>, i: nat, j: nat)
    requires interval > 0 && RisesByChannel(rs) && i < j < |rs| && HoldsData(rs[i]) && HoldsData(rs[j])
    requires rs[i].ch == rs[j].ch && rs[i].ts == rs[j].ts
    ensures !DueAt(interval, rs, j)
  {
    hide EncodeAll, PointsOf, Rested;
    RepeatsAreNotDue(interval, rs, i, j);
    DueWhenRested(interval, PointsOf(interval, rs[..j]), SeekPoint(rs[j].ch, rs[j].ts, 0));
  }

  // ----- where a seek lands in a segment -----

  /** The least offset over all channels of a latest point at or before the target; the start when there is none. */
  ghost predicate SeeksTo(points: seq<SeekPoint>, channels: seq<u16>, target: u64, offset: nat) {
    if forall c :: c in channels ==> NoneUpTo(points, c, target) then offset == HEADER_SIZE
    else
      && (exists p: SeekPoint :: p.ch in channels && Latest(points, p.ch, target, p) && offset == p.offset)
      && forall c :: c in channels && !NoneUpTo(points, c, target) ==>
           exists q :: Latest(points, c, target, q) && offset <= q.offset
  }

  /** The offset Seek goes to: the least over the channels of what the index finds, when it finds anything. */
  function SeekOffset(points: seq<SeekPoint>, channels: seq<u16>, target: u64): Option<nat> {
    if channels == [] then None
    else
      var n := |channels| - 1;
      Sooner(SeekOffset(points, channels[..n], target), OffsetUpTo(points, channels[n], target))
  }

  function Sooner(best: Option<nat>, offset: nat): Option<nat> {
    if offset == U64_MAX then best
    else if best.None? || offset < best.value then Some(offset)
    else best
  }

  lemma {:induction false} SeekOffsetBounds(points: seq<SeekPoint>, channels: seq<u16>, target: u64)
    requires Sorted(points) && forall p :: p in points ==> p.offset < U64_MAX
    ensures var at := SeekOffset(points, channels, target);
            && (at.None? <==> forall c :: c in channels ==> NoneUpTo(points, c, target))
            && (at.Some? ==> exists p: SeekPoint :: p.ch in channels && Latest(points, p.ch, target, p) && at.value == p.offset)
            && forall c :: c in channels && !NoneUpTo(points, c, target) ==>
                 at.Some? && exists q :: Latest(points, c, target, q) && at.value <= q.offset
    decreases |channels|
  {
    if channels != [] {
      var n := |channels| - 1;
      var c := channels[n];
      SeekOffsetBounds(points, channels[..n], target);
      LastIsLatest(points, c, target);
      assert channels == channels[..n] + [c];
      var best := SeekOffset(points, channels[..n], target);
      var at := Sooner(best, OffsetUpTo(points, c, target));
      if LastUpTo(points, c, target).Some? {
        assert Latest(points, c, target, LastUpTo(points, c, target).value);
      }
      forall d | d in channels && !NoneUpTo(points, d, target)
        ensures at.Some? && exists q :: Latest(points, d, target, q) && at.value <= q.offset
      {
        if d in channels[..n] {
          var q :| Latest(points, d, target, q) && best.value <= q.offset;
        }
      }
    }
  }

  lemma SeekOffsetSeeks(points: seq<SeekPoint>, channels: seq<u16>, target: u64)
    requires Sorted(points) && forall p :: p in points ==> p.offset < U64_MAX
    ensures SeeksTo(points, channels, target, SeekOffset(points, channels, target).GetOr(HEADER_SIZE))
  {
    SeekOffsetBounds(points, channels, target);
  }

  /** The index of a segment: lost, or in some order the points of its records. */
  ghost predicate Faithful(points: seq<SeekPoint>, rs: seq<Rec>) {
    points == [] || exists interval: u64 :: interval > 0 && multiset(points) == multiset(PointsOf(interval, rs))
  }

  ghost predicate Listed(rs: seq<Rec>, channels: seq<u16>) {
    forall i :: 0 <= i < |rs| && HoldsData(rs[i]) ==> rs[i].ch in channels
  }

  lemma OffsetsGrow(rs: seq<Rec>, i: nat, j: nat)
    requires i < j <= |rs|
    ensures OffsetOf(rs, i) < OffsetOf(rs, j)
  {
    hide Encode;
    assert rs[..j] == rs[..i] + rs[i..j];
    EncodeAllConcat(rs[..i], rs[i..j]);
    CountBound(rs[i..j]);
  }

  /** The records a seek jumps over in its segment all lie before the target. */
  lemma SeekWithinSegment(points: seq<SeekPoint>, rs: seq<Rec>, channels: seq<u16>, target: u64, offset: nat) returns (i: nat)
    requires Faithful(points, rs) && Rising(rs) && Listed(rs, channels) && SeeksTo(points, channels, target, offset)
    ensures i <= |rs| && offset == OffsetOf(rs, i)
    ensures forall k :: 0 <= k < i && HoldsData(rs[k]) ==> rs[k].ts < target
  {
    hide EncodeAll, PointsOf, Due;
    if forall c :: c in channels ==> NoneUpTo(points, c, target) {
      i := 0;
      assert OffsetOf(rs, 0) == HEADER_SIZE by { StartOffset(rs); }
    } else {
      var interval: u64 :| interval > 0 && multiset(points) == multiset(PointsOf(interval, rs));
      SameMembers(points, PointsOf(interval, rs));
      var p: SeekPoint :| p.ch in channels && Latest(points, p.ch, target, p) && offset == p.offset;
      i := PointsAreSound(interval, rs, p);
      forall k | 0 <= k < i && HoldsData(rs[k])
        ensures rs[k].ts < target
      {
        TiedBehind(points, interval, rs, channels, target, i, k);
      }
    }
  }

  lemma StartOffset(rs: seq<Rec>)
    ensures OffsetOf(rs, 0) == HEADER_SIZE
  {
    assert EncodeAll([]) == [];
  }

  lemma SameMembers<T>(a: seq<T>, b: seq<T>)
    requires multiset(a) == multiset(b)
    ensures forall x :: x in a <==> x in b
  {
    forall x
      ensures x in a <==> x in b
    {
      assert x in multiset(a) <==> x in multiset(b);
    }
  }

  /** A record tied with the target cannot lie before the place sought: its channel's own point would be earlier. */
  lemma TiedBehind(points: seq<SeekPoint>, interval: u64, rs: seq<Rec>, channels: seq<u16>, target: u64, i: nat, k: nat)
    requires interval > 0 && (forall x :: x in points <==> x in PointsOf(interval, rs))
    requires Rising(rs) && Listed(rs, channels)
    requires k < i < |rs| && HoldsData(rs[k]) && HoldsData(rs[i]) && rs[i].ts <= target
    requires forall c :: c in channels && !NoneUpTo(points, c, target) ==>
               exists q :: Latest(points, c, target, q) && OffsetOf(rs, i) <= q.offset
    ensures rs[k].ts < target
  {
    hide EncodeAll, PointsOf, Due;
    if rs[k].ts >= target {
      var c := rs[k].ch;
      var q0 := CoveringPoint(interval, rs, k);
      assert q0 in points && q0.ch == c && q0.ts <= target;
      var q :| Latest(points, c, target, q) && OffsetOf(rs, i) <= q.offset;
      var j := PointsAreSound(interval, rs, q);
      if j < i {
        OffsetsGrow(rs, j, i);
      }
      PointIsFirst(interval, rs, k, j);
      assert false;
    }
  }

  lemma CoveringPoint(interval: u64, rs: seq<Rec>, k: nat) returns (q: SeekPoint)
    requires RisesByChannel(rs) && k < |rs| && HoldsData(rs[k])
    ensures q in PointsOf(interval, rs) && q.ch == rs[k].ch && q.ts <= rs[k].ts
  {
    hide EncodeAll, PointsOf, Due;
    PointsCover(interval, rs, k);
    var upTo := PointsOf(interval, rs[..k + 1]);
    LastOnIsMember(upTo, rs[k].ch);
    q :| q in upTo && q.ch == rs[k].ch && q.ts == LastOn(upTo, rs[k].ch).value;
    var j := PointsAreSound(interval, rs[..k + 1], q);
    assert rs[..k + 1][j] == rs[j];
  }

  // ----- from an offset on -----

  /** Read from the offset of record i, a file gives the records from i on. */
  lemma RecordsFrom(file: bytes, i: nat)
    requires |file| >= HEADER_SIZE && i <= |FileRecords(file)|
    ensures Records(From(file, OffsetOf(FileRecords(file), i))) == FileRecords(file)[i..]
  {
    hide EncodeAll, Records, Tail, Stuck, AllFramed;
    var body, rs := file[HEADER_SIZE..], FileRecords(file);
    var tail := Tail(body);
    Walk(body);
    assert rs == rs[..i] + rs[i..];
    EncodeAllConcat(rs[..i], rs[i..]);
    Seqs.Regroup(EncodeAll(rs[..i]), EncodeAll(rs[i..]), tail);
    Seqs.DropPrefix(EncodeAll(rs[..i]), EncodeAll(rs[i..]) + tail);
    Seqs.DropTwice(file, HEADER_SIZE, |EncodeAll(rs[..i])|);
    FramedPart(rs, i);
    WalkIsUnique(rs[i..], tail, EncodeAll(rs[i..]) + tail);
  }

  lemma FramedPart(rs: seq<Rec>, i: nat)
    requires AllFramed(rs) && i <= |rs|
    ensures AllFramed(rs[i..])
  {
  }

  // ----- the linear filter -----

  datatype ReadOptions = ReadOptions(channels: seq<u16>, startNs: u64, endNs: u64)

  predicate Wanted(o: ReadOptions, m: Msg) {
    && (o.startNs > 0 ==> m.ts >= o.startNs)
    && (o.endNs > 0 ==> m.ts <= o.endNs)
    && (o.channels != [] ==> m.ch in o.channels)
  }

  /** The messages the options ask for, whatever the order of the stream. */
  function Filter(o: ReadOptions, ms: seq<Msg>): seq<Msg> {
    if ms == [] then [] else (if Wanted(o, ms[0]) then [ms[0]] else []) + Filter(o, ms[1..])
  }

  /** Asked for: from the start on when one is set, up to the end when one is set, on one of the channels when any is named. */
  ghost predicate AskedFor(startNs: u64, endNs: u64, channels: seq<u16>, m: Msg) {
    && (startNs == 0 || startNs <= m.ts) && (endNs == 0 || m.ts <= endNs)
    && (channels == [] || exists k :: 0 <= k < |channels| && channels[k] == m.ch)
  }

  /** The messages at these positions, which are in order, and no others are asked for. */
  ghost predicate Selects(o: ReadOptions, ms: seq<Msg>, some: seq<Msg>, at: seq<nat>) {
    && |at| == |some| && (forall t :: 0 <= t < |at| ==> at[t] < |ms| && ms[at[t]] == some[t])
    && (forall t, u :: 0 <= t < u < |at| ==> at[t] < at[u])
    && forall p: nat :: p < |ms| ==> (p in at <==> AskedFor(o.startNs, o.endNs, o.channels, ms[p]))
  }

  lemma SelectsSnoc(o: ReadOptions, ms: seq<Msg>, some: seq<Msg>, at: seq<nat>, m: Msg)
    requires Selects(o, ms, some, at)
    ensures if AskedFor(o.startNs, o.endNs, o.channels, m) then Selects(o, ms + [m], some + [m], at + [|ms|]) else Selects(o, ms + [m], some, at)
  {
    hide AskedFor;
    var all := ms + [m];
    assert forall p: nat :: p < |ms| ==> all[p] == ms[p];
    if AskedFor(o.startNs, o.endNs, o.channels, m) {
      var more := at + [|ms|];
      assert more[|at|] == |ms|;
      forall p: nat | p < |all|
        ensures p in more <==> AskedFor(o.startNs, o.endNs, o.channels, all[p])
      {
        assert p in more <==> p in at || p == |ms|;
      }
    }
  }

  lemma {:induction false} FilterSnoc(o: ReadOptions, ms: seq<Msg>, m: Msg)
    ensures Filter(o, ms + [m]) == Filter(o, ms) + if Wanted(o, m) then [m] else []
    decreases |ms|
  {
    hide Wanted;
    if ms == [] {
      assert [m][1..] == [];
    } else {
      assert (ms + [m])[1..] == ms[1..] + [m];
      FilterSnoc(o, ms[1..], m);
    }
  }

  /** The filter keeps exactly the messages asked for, in their order. */
  lemma {:induction false} FilterSelects(o: ReadOptions, ms: seq<Msg>) returns (at: seq<nat>)
    ensures Selects(o, ms, Filter(o, ms), at)
    decreases |ms|
  {
    if ms == [] {
      at := [];
    } else {
      hide Selects, AskedFor, Filter, Wanted;
      var n := |ms| - 1;
      assert ms == ms[..n] + [ms[n]];
      at := FilterSelects(o, ms[..n]);
      SelectsSnoc(o, ms[..n], Filter(o, ms[..n]), at, ms[n]);
      FilterSnoc(o, ms[..n], ms[n]);
      WantedIsAskedFor(o, ms[n]);
      assert Filter(o, ms[..n]) + [] == Filter(o, ms[..n]);
      if AskedFor(o.startNs, o.endNs, o.channels, ms[n]) {
        at := at + [n];
      }
    }
  }

  lemma WantedIsAskedFor(o: ReadOptions, m: Msg)
    ensures Wanted(o, m) <==> AskedFor(o.startNs, o.endNs, o.channels, m)
  {
  }

  /** The messages a callback sees before it stops: everything up to the first call it answers with false. */
  function Visited(go: seq<Msg> -> bool, done: seq<Msg>, ms: seq<Msg>): seq<Msg>
    decreases |ms|
  {
    if ms == [] then done
    else if !go(done + [ms[0]]) then done + [ms[0]]
    else Visited(go, done + [ms[0]], ms[1..])
  }

  /** The callback lets everything pass, or sees a prefix and refuses exactly its last message. */
  ghost predicate SeenUpTo(go: seq<Msg> -> bool, done: seq<Msg>, ms: seq<Msg>, n: nat) {
    && n <= |ms| && (forall k :: 0 < k < n ==> go(done + ms[..k])) && (n < |ms| ==> n > 0 && !go(done + ms[..n]))
  }

  /** What is visited is a prefix, up to the first message the callback answers with false. */
  lemma {:induction false} VisitedIsPrefix(go: seq<Msg> -> bool, done: seq<Msg>, ms: seq<Msg>) returns (n: nat)
    ensures SeenUpTo(go, done, ms, n) && Visited(go, done, ms) == done + ms[..n]
    decreases |ms|
  {
    if ms == [] {
      n := 0;
      assert done + [] == done;
    } else if !go(done + [ms[0]]) {
      n := 1;
      assert ms[..1] == [ms[0]];
    } else {
      var rest, more := ms[1..], done + [ms[0]];
      var k := VisitedIsPrefix(go, more, rest);
      n := k + 1;
      forall j | 0 < j <= |ms|
        ensures done + ms[..j] == more + rest[..j - 1]
      {
        assert ms[..j] == [ms[0]] + rest[..j - 1];
      }
      forall j | 0 < j < n
        ensures go(done + ms[..j])
      {
        assert more + rest[..0] == more;
        assert done + ms[..j] == more + rest[..j - 1];
      }
    }
  }

  predicate Beyond(o: ReadOptions, m: Msg) { o.endNs > 0 && m.ts > o.endNs }

  /** What Read visits of the messages ahead: it stops for good at the first one behind the end. */
  function Scan(o: ReadOptions, go: seq<Msg> -> bool, done: seq<Msg>, ms: seq<Msg>): seq<Msg>
    decreases |ms|
  {
    if ms == [] || Beyond(o, ms[0]) then done
    else if !Wanted(o, ms[0]) then Scan(o, go, done, ms[1..])
    else if !go(done + [ms[0]]) then done + [ms[0]]
    else Scan(o, go, done + [ms[0]], ms[1..])
  }

  lemma {:induction false} NoneWanted(o: ReadOptions, ms: seq<Msg>)
    requires forall m :: m in ms ==> !Wanted(o, m)
    ensures Filter(o, ms) == []
  {
    if ms != [] {
      NoneWanted(o, ms[1..]);
    }
  }

  lemma {:induction false} FilterConcat(o: ReadOptions, a: seq<Msg>, b: seq<Msg>)
    ensures Filter(o, a + b) == Filter(o, a) + Filter(o, b)
    decreases |a|
  {
    if a == [] {
      assert a + b == b;
    } else {
      assert (a + b)[1..] == a[1..] + b;
      FilterConcat(o, a[1..], b);
      Seqs.Regroup(if Wanted(o, a[0]) then [a[0]] else [], Filter(o, a[1..]), Filter(o, b));
    }
  }

  /** On a stream of rising timestamps the early stop loses nothing. */
  lemma {:induction false} ScanIsFilter(o: ReadOptions, go: seq<Msg> -> bool, done: seq<Msg>, ms: seq<Msg>)
    requires RisingMsgs(ms)
    ensures Scan(o, go, done, ms) == Visited(go, done, Filter(o, ms))
    decreases |ms|
  {
    if ms != [] {
      var rest := ms[1..];
      if Beyond(o, ms[0]) {
        assert forall m :: m in ms ==> !Wanted(o, m);
        NoneWanted(o, ms);
      } else if !Wanted(o, ms[0]) {
        ScanIsFilter(o, go, done, rest);
        assert [] + Filter(o, rest) == Filter(o, rest);
      } else {
        ScanIsFilter(o, go, done + [ms[0]], rest);
        assert ([ms[0]] + Filter(o, rest))[1..] == Filter(o, rest);
      }
    }
  }
}
