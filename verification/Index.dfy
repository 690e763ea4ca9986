/** The seek index: which records get a seek point, how points are stored, and how they are looked up. */
module Index {
  import opened Bytes
  import opened Outcomes
  import Seqs

  datatype SeekPoint = SeekPoint(ch: u16, ts: u64, offset: nat)

  // ----- which records are indexed -----

  /** The timestamp of the latest point on a channel. */
  function LastOn(points: seq<SeekPoint>, ch: u16): Option<u64> {
    if points == [] then None
    else if points[|points| - 1].ch == ch then Some(points[|points| - 1].ts)
    else LastOn(points[..|points| - 1], ch)
  }

  /** Elapsed time as the 64-bit subtraction computes it. */
  function Elapsed(now: u64, last: u64): u64 {
    if now >= last then now - last else now - last + 0x1_0000_0000_0000_0000
  }

  predicate Due(interval: u64, points: seq<SeekPoint>, ch: u16, ts: u64) {
    LastOn(points, ch).None? || Elapsed(ts, LastOn(points, ch).value) >= interval
  }

  function AddIfDue(interval: u64, points: seq<SeekPoint>, p: SeekPoint): seq<SeekPoint> {
    if Due(interval, points, p.ch, p.ts) then points + [p] else points
  }

  /** Point k is the last one on the channel. */
  ghost predicate LastPoint(points: seq<SeekPoint>, ch: u16, k: nat) {
    k < |points| && points[k].ch == ch && forall j :: k < j < |points| ==> points[j].ch != ch
  }

  /** At least an interval apart, in 64-bit arithmetic. */
  ghost predicate FarEnough(interval: u64, earlier: u64, later: u64) { (later - earlier) % 0x1_0000_0000_0000_0000 >= interval }

  /** A channel's last point, if it has one, is at least an interval back. */
  ghost predicate Rested(interval: u64, points: seq<SeekPoint>, ch: u16, ts: u64) {
    forall k: nat :: LastPoint(points, ch, k) ==> FarEnough(interval, points[k].ts, ts)
  }

  lemma {:induction false} LastOnIsPoint(points: seq<SeekPoint>, ch: u16)
    ensures LastOn(points, ch).None? ==> forall k: nat :: !LastPoint(points, ch, k)
    ensures LastOn(points, ch).Some? ==> exists k: nat :: LastPoint(points, ch, k) && points[k].ts == LastOn(points, ch).value
    decreases |points|
  {
    if points != [] {
      var n := |points| - 1;
      var before := points[..n];
      if points[n].ch == ch {
        assert LastPoint(points, ch, n);
      } else {
        LastOnIsPoint(before, ch);
        assert forall k: nat :: LastPoint(points, ch, k) ==> LastPoint(before, ch, k);
        assert forall k: nat :: LastPoint(before, ch, k) ==> LastPoint(points, ch, k) && points[k] == before[k];
      }
    }
  }

  /** When a record gets a point. */
  lemma DueWhenRested(interval: u64, points: seq<SeekPoint>, p: SeekPoint)
    ensures AddIfDue(interval, points, p) == if Rested(interval, points, p.ch, p.ts) then points + [p] else points
    ensures Due(interval, points, p.ch, p.ts) <==> Rested(interval, points, p.ch, p.ts)
  {
    LastOnIsPoint(points, p.ch);
    if LastOn(points, p.ch).Some? {
      var k: nat :| LastPoint(points, p.ch, k) && points[k].ts == LastOn(points, p.ch).value;
      assert forall j: nat :: LastPoint(points, p.ch, j) ==> j == k;
    }
  }

  lemma {:induction false} LastOnNone(points: seq<SeekPoint>, ch: u16)
    ensures LastOn(points, ch).None? <==> forall p :: p in points ==> p.ch != ch
  {
    if points != [] {
      var n := |points| - 1;
      LastOnNone(points[..n], ch);
      assert points == points[..n] + [points[n]];
    }
  }

  /** Collects seek points while a segment is written. */
  class IndexBuilder {
    const Interval: u64
    var Points: seq<SeekPoint>
    var LastIndexed: seq<u64>

    ghost predicate Valid()
      reads this
    {
      && |LastIndexed| <= 0x1_0000
      && (forall p :: p in Points ==> p.ch < |LastIndexed|)
      && forall c: u16 :: c < |LastIndexed| ==> LastIndexed[c] == LastOn(Points, c).GetOr(0)
    }

    constructor (interval: u64)
      ensures Valid() && Interval == interval && Points == []
    {
      Interval := interval;
      Points := [];
      LastIndexed := [];
    }

    method Cover(channel: u16)
      requires Valid()
      modifies this`LastIndexed
      ensures Valid() && channel < |LastIndexed|
    {
      if channel >= |LastIndexed| {
        LastOnNoneBeyond(Points, |LastIndexed|);
        LastIndexed := LastIndexed + seq(channel + 1 - |LastIndexed|, _ => 0);
      }
    }

    method MaybeAdd(channel: u16, timestamp: u64, offset: nat)
      requires Valid()
      modifies this
      ensures Valid()
      ensures Points == AddIfDue(Interval, old(Points), SeekPoint(channel, timestamp, offset))
      ensures Points == old(Points) + (if Rested(Interval, old(Points), channel, timestamp) then [SeekPoint(channel, timestamp, offset)] else [])
    {
      DueWhenRested(Interval, Points, SeekPoint(channel, timestamp, offset));
      Cover(channel);
      LastOnNone(Points, channel);
      var firstOnChannel := LastIndexed[channel] == 0 && forall p | p in Points :: p.ch != channel;
      if firstOnChannel || Elapsed(timestamp, LastIndexed[channel]) >= Interval {
        Add(channel, timestamp, offset);
      }
    }

    method Add(channel: u16, timestamp: u64, offset: nat)
      requires Valid()
      modifies this
      ensures Valid()
      ensures Points == old(Points) + [SeekPoint(channel, timestamp, offset)]
    {
      Cover(channel);
      var p := SeekPoint(channel, timestamp, offset);
      assert (Points + [p])[..|Points|] == Points;
      Points := Points + [p];
      LastIndexed := LastIndexed[channel := timestamp];
    }

    method Serialise() returns (buf: bytes)
      ensures buf == StoredPoints(Points)
    {
      buf := LE(|Points|, 4);
      for i := 0 to |Points|
        invariant buf + StoredEntries(Points[i..]) == StoredPoints(Points)
      {
        assert Points[i..][1..] == Points[i + 1..];
        Seqs.Regroup(buf, StoredEntry(Points[i]), StoredEntries(Points[i + 1..]));
        buf := buf + StoredEntry(Points[i]);
      }
    }

    method Reset()
      modifies this
      ensures Valid() && Points == []
    {
      Points := [];
      LastIndexed := [];
    }
  }

  lemma LastOnNoneBeyond(points: seq<SeekPoint>, n: nat)
    requires forall p :: p in points ==> p.ch < n
    ensures forall c: u16 :: c >= n ==> LastOn(points, c).None?
  {
    forall c: u16 | c >= n
      ensures LastOn(points, c).None?
    {
      LastOnNone(points, c);
    }
  }

  // ----- the stored form -----

  const ENTRY_SIZE: nat := 18

  function StoredEntry(p: SeekPoint): (s: bytes)
    ensures |s| == ENTRY_SIZE
  {
    LE(p.ch, 2) + LE(p.ts, 8) + LE(p.offset, 8)
  }

  function StoredEntries(points: seq<SeekPoint>): (s: bytes)
    ensures |s| == ENTRY_SIZE * |points|
  {
    if points == [] then [] else StoredEntry(points[0]) + StoredEntries(points[1..])
  }

  function StoredPoints(points: seq<SeekPoint>): (s: bytes)
    ensures |s| == 4 + ENTRY_SIZE * |points|
  {
    LE(|points|, 4) + StoredEntries(points)
  }

  /** What is written of an index: as much of it as a 32-bit length can say. */
  function CutPoints(points: seq<SeekPoint>): (s: bytes)
    ensures |s| < 0x1_0000_0000
    ensures 4 + ENTRY_SIZE * |points| < 0x1_0000_0000 ==> s == StoredPoints(points)
  {
    var s := StoredPoints(points);
    s[..|s| % 0x1_0000_0000]
  }

  function LoadedEntry(s: bytes): SeekPoint
    requires |s| >= ENTRY_SIZE
  {
    SeekPoint(U16(s[..2]), U64(s[2..10]), U64(s[10..18]))
  }

  function LoadedEntries(s: bytes, n: nat): (points: seq<SeekPoint>)
    requires |s| >= ENTRY_SIZE * n
    ensures |points| == n
    decreases n
  {
    if n == 0 then [] else [LoadedEntry(s)] + LoadedEntries(s[ENTRY_SIZE..], n - 1)
  }

  /** The points in an INDEX payload in stored order, or None when the payload is too short for its count. */
  function LoadedPoints(payload: bytes): Option<seq<SeekPoint>> {
    if |payload| < 4 then None
    else if |payload| < 4 + ENTRY_SIZE * U32(payload[..4]) then None
    else Some(LoadedEntries(payload[4..], U32(payload[..4])))
  }

  lemma LoadStoredEntry(p: SeekPoint, rest: bytes)
    requires p.offset <= U64_MAX
    ensures LoadedEntry(StoredEntry(p) + rest) == p
    ensures (StoredEntry(p) + rest)[ENTRY_SIZE..] == rest
  {
    var s := StoredEntry(p) + rest;
    assert s[..2] == LE(p.ch, 2) && s[2..10] == LE(p.ts, 8) && s[10..18] == LE(p.offset, 8);
    ReadBack(p.ch, 0, p.ts);
    ReadBack(0, 0, p.offset);
  }

  lemma {:induction false} LoadStoredEntries(points: seq<SeekPoint>)
    requires forall p :: p in points ==> p.offset <= U64_MAX
    ensures LoadedEntries(StoredEntries(points), |points|) == points
    decreases |points|
  {
    if points != [] {
      LoadStoredEntry(points[0], StoredEntries(points[1..]));
      LoadStoredEntries(points[1..]);
    }
  }

  lemma LoadStored(points: seq<SeekPoint>)
    requires |points| < 0x1_0000_0000
    requires forall p :: p in points ==> p.offset <= U64_MAX
    ensures LoadedPoints(StoredPoints(points)) == Some(points)
  {
    var s := StoredPoints(points);
    assert s[..4] == LE(|points|, 4) && s[4..] == StoredEntries(points);
    ReadBack(0, |points|, 0);
    LoadStoredEntries(points);
  }

  // ----- lookup -----

  predicate Before(a: SeekPoint, b: SeekPoint) {
    a.ch < b.ch || (a.ch == b.ch && a.ts < b.ts)
  }

  ghost predicate Sorted(points: seq<SeekPoint>) {
    forall i, j :: 0 <= i < j < |points| ==> !Before(points[j], points[i])
  }

  /** p is a latest point on the channel at or before the target. */
  ghost predicate Latest(points: seq<SeekPoint>, ch: u16, target: u64, p: SeekPoint) {
    && p in points && p.ch == ch && p.ts <= target
    && forall q :: q in points && q.ch == ch && q.ts <= target ==> q.ts <= p.ts
  }

  ghost predicate NoneUpTo(points: seq<SeekPoint>, ch: u16, target: u64) {
    forall q :: q in points ==> q.ch != ch || q.ts > target
  }

  function Inserted(points: seq<SeekPoint>, p: SeekPoint): seq<SeekPoint> {
    if points == [] || Before(p, points[0]) then [p] + points
    else [points[0]] + Inserted(points[1..], p)
  }

  lemma {:induction false} InsertedIsSorted(points: seq<SeekPoint>, p: SeekPoint)
    requires Sorted(points)
    ensures Sorted(Inserted(points, p))
    ensures multiset(Inserted(points, p)) == multiset(points) + multiset{p}
    decreases |points|
  {
    if points == [] || Before(p, points[0]) {
      assert multiset([p] + points) == multiset(points) + multiset{p};
    } else {
      hide Sorted;
      var rest := points[1..];
      assert points == [points[0]] + rest;
      PrefixSorted(points);
      assert multiset(points) == multiset([points[0]]) + multiset(rest);
      InsertedIsSorted(rest, p);
      forall q | q in Inserted(rest, p)
        ensures !Before(q, points[0])
      {
        assert q in multiset(Inserted(rest, p));
        assert q == p || q in rest;
      }
      FrontSorted(points[0], Inserted(rest, p));
    }
  }

  lemma PrefixSorted(points: seq<SeekPoint>)
    requires Sorted(points) && points != []
    ensures Sorted(points[1..]) && forall q :: q in points[1..] ==> !Before(q, points[0])
  {
  }

  lemma FrontSorted(first: SeekPoint, rest: seq<SeekPoint>)
    requires Sorted(rest) && forall q :: q in rest ==> !Before(q, first)
    ensures Sorted([first] + rest)
  {
  }

  /** Loaded by the reader, one per segment. */
  class SeekIndex {
    var Points: seq<SeekPoint>

    constructor ()
      ensures Points == []
    {
      Points := [];
    }

    /** The entries of an INDEX payload in stored order. */
    method ReadEntries(s: bytes, count: nat) returns (entries: seq<SeekPoint>)
      requires |s| >= ENTRY_SIZE * count
      ensures entries == LoadedEntries(s, count)
    {
      hide LoadedEntry;
      entries := [];
      var pos := 0;
      for i := 0 to count
        invariant pos == ENTRY_SIZE * i
        invariant entries + LoadedEntries(s[pos..], count - i) == LoadedEntries(s, count)
      {
        assert s[pos..][ENTRY_SIZE..] == s[pos + ENTRY_SIZE..];
        entries := entries + [LoadedEntry(s[pos..])];
        pos := pos + ENTRY_SIZE;
      }
    }

    /** Replaces the points by those of an INDEX payload, ordered by channel and timestamp. */
    method Load(payload: bytes) returns (ok: bool)
      modifies this
      ensures ok == LoadedPoints(payload).Some?
      ensures ok ==> Sorted(Points) && multiset(Points) == multiset(LoadedPoints(payload).value)
      ensures !ok ==> Points == old(Points)
    {
      if |payload| < 4 {
        return false;
      }
      var count := U32(payload[..4]);
      if |payload| < 4 + count * ENTRY_SIZE {
        return false;
      }
      var entries := ReadEntries(payload[4..], count);
      var points := [];
      for i := 0 to count
        invariant Sorted(points) && multiset(points) == multiset(entries[..i])
      {
        InsertedIsSorted(points, entries[i]);
        assert entries[..i + 1] == entries[..i] + [entries[i]];
        points := Inserted(points, entries[i]);
      }
      assert entries[..count] == entries;
      Points := points;
      return true;
    }

    method LowerBound(key: SeekPoint) returns (k: nat)
      requires Sorted(Points)
      ensures k <= |Points|
      ensures forall i :: 0 <= i < k ==> Before(Points[i], key)
      ensures forall i :: k <= i < |Points| ==> !Before(Points[i], key)
    {
      k := 0;
      var hi := |Points|;
      while k < hi
        invariant k <= hi <= |Points|
        invariant forall i :: 0 <= i < k ==> Before(Points[i], key)
        invariant forall i :: hi <= i < |Points| ==> !Before(Points[i], key)
      {
        var mid := (k + hi) / 2;
        if Before(Points[mid], key) {
          k := mid + 1;
        } else {
          hi := mid;
        }
      }
    }

    /** The offset of a latest point at or before the target, or U64_MAX when there is none. */
    method Find(channel: u16, target: u64) returns (offset: nat)
      requires Sorted(Points)
      ensures offset == OffsetUpTo(Points, channel, target)
      ensures NoneUpTo(Points, channel, target) ==> offset == U64_MAX
      ensures !NoneUpTo(Points, channel, target) ==> exists p :: Latest(Points, channel, target, p) && offset == p.offset
    {
      offset := U64_MAX;
      var i := LowerBound(SeekPoint(channel, 0, 0));
      ghost var start := i;
      while i < |Points| && Points[i].ch == channel && Points[i].ts <= target
        invariant start <= i <= |Points|
        invariant forall k :: start <= k < i ==> Points[k].ch == channel && Points[k].ts <= target
        invariant if i == start then offset == U64_MAX else offset == Points[i - 1].offset
      {
        offset := Points[i].offset;
        i := i + 1;
      }
      LastUpToAt(Points, channel, target, i, |Points|);
      assert Points[..|Points|] == Points;
      LastIsLatest(Points, channel, target);
    }
  }

  predicate AtOrBefore(p: SeekPoint, ch: u16, target: u64) { p.ch == ch && p.ts <= target }

  /** The last point, in index order, on a channel at or before the target. */
  function LastUpTo(points: seq<SeekPoint>, ch: u16, target: u64): Option<SeekPoint> {
    if points == [] then None
    else if AtOrBefore(points[|points| - 1], ch, target) then Some(points[|points| - 1])
    else LastUpTo(points[..|points| - 1], ch, target)
  }

  function OffsetUpTo(points: seq<SeekPoint>, ch: u16, target: u64): nat {
    match LastUpTo(points, ch, target)
    case Some(p) => p.offset
    case None => U64_MAX
  }

  lemma {:induction false} LastUpToAt(points: seq<SeekPoint>, ch: u16, target: u64, k: nat, n: nat)
    requires k <= n <= |points| && forall j :: k <= j < n ==> !AtOrBefore(points[j], ch, target)
    requires (k == 0 || AtOrBefore(points[k - 1], ch, target)) || forall j :: 0 <= j < k ==> !AtOrBefore(points[j], ch, target)
    ensures LastUpTo(points[..n], ch, target) ==
            if k > 0 && AtOrBefore(points[k - 1], ch, target) then Some(points[k - 1]) else None
    decreases n
  {
    if n > k {
      assert points[..n][..n - 1] == points[..n - 1];
      LastUpToAt(points, ch, target, k, n - 1);
    } else if k > 0 && !AtOrBefore(points[k - 1], ch, target) {
      assert points[..n][..n - 1] == points[..n - 1];
      LastUpToAt(points, ch, target, k - 1, n - 1);
    }
  }

  /** In a sorted index the last point up to the target is a latest one. */
  lemma {:induction false} LastIsLatest(points: seq<SeekPoint>, ch: u16, target: u64)
    requires Sorted(points)
    ensures LastUpTo(points, ch, target).None? <==> NoneUpTo(points, ch, target)
    ensures LastUpTo(points, ch, target).Some? ==> Latest(points, ch, target, LastUpTo(points, ch, target).value)
    decreases |points|
  {
    if points != [] {
      var n := |points| - 1;
      assert points == points[..n] + [points[n]];
      if !AtOrBefore(points[n], ch, target) {
        LastIsLatest(points[..n], ch, target);
      }
    }
  }
}
