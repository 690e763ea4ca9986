/** Reading by index gives what a linear filter of the whole session gives, and exactly when it does not. */
module IndexedRead {
  import opened Bytes
  import opened Format
  import opened Outcomes
  import opened Routines
  import opened Stream
  import opened Index
  import opened Summary
  import opened Opening
  import opened Seeking
  import opened Playback
  import Seqs

  // ----- plain records: intact, nothing compressed -----

  ghost predicate Plain(lib: Library, rs: seq<Rec>) {
    forall i :: 0 <= i < |rs| ==> Intact(lib, rs[i]) && rs[i].op != OP_CHUNK
  }

  lemma PlainOne(lib: Library, r: Rec)
    requires Intact(lib, r) && r.op != OP_CHUNK
    ensures RecMsgs(lib, r) == if HoldsData(r) then [Msg(r.ch, r.ts, r.payload)] else []
  {
  }

  /** The messages of plain records stand in the order, with the timestamps, of their data records. */
  lemma {:induction false} PlainMsgs(lib: Library, rs: seq<Rec>)
    requires Plain(lib, rs)
    ensures forall m :: m in Msgs(lib, rs) ==> exists i :: 0 <= i < |rs| && HoldsData(rs[i]) && rs[i].ts == m.ts
    ensures Rising(rs) ==> RisingMsgs(Msgs(lib, rs))
    decreases |rs|
  {
    hide Intact, HoldsData, RecMsgs;
    if rs != [] {
      var rest := rs[1..];
      assert rs == [rs[0]] + rest;
      PlainMsgs(lib, rest);
      PlainOne(lib, rs[0]);
      forall m | m in Msgs(lib, rs)
        ensures exists i :: 0 <= i < |rs| && HoldsData(rs[i]) && rs[i].ts == m.ts
      {
        if m in Msgs(lib, rest) {
          var i :| 0 <= i < |rest| && HoldsData(rest[i]) && rest[i].ts == m.ts;
          assert rs[i + 1] == rest[i];
        } else {
          assert HoldsData(rs[0]) && rs[0].ts == m.ts;
        }
      }
      if Rising(rs) {
        RisingTail(lib, rs);
      }
    }
  }

  lemma RisingTail(lib: Library, rs: seq<Rec>)
    requires rs != [] && Rising(rs)
    requires RecMsgs(lib, rs[0]) == if HoldsData(rs[0]) then [Msg(rs[0].ch, rs[0].ts, rs[0].payload)] else []
    requires forall m :: m in Msgs(lib, rs[1..]) ==> exists i :: 0 <= i < |rs[1..]| && HoldsData(rs[1..][i]) && rs[1..][i].ts == m.ts
    requires Rising(rs[1..]) ==> RisingMsgs(Msgs(lib, rs[1..]))
    ensures RisingMsgs(Msgs(lib, rs))
  {
    hide HoldsData, RecMsgs;
    var rest := rs[1..];
    forall i, j | 0 <= i < j < |rest| && HoldsData(rest[i]) && HoldsData(rest[j])
      ensures rest[i].ts <= rest[j].ts
    {
      assert rs[i + 1] == rest[i] && rs[j + 1] == rest[j];
    }
    var later := Msgs(lib, rest);
    forall k | 0 <= k < |later| && HoldsData(rs[0])
      ensures rs[0].ts <= later[k].ts
    {
      assert later[k] in later;
      var i :| 0 <= i < |rest| && HoldsData(rest[i]) && rest[i].ts == later[k].ts;
      assert rs[i + 1] == rest[i];
    }
  }

  // ----- orderly sessions -----

  function SegRecords(segs: seq<SegmentData>, i: nat): seq<Rec>
    requires i < |segs|
  {
    FileRecords(segs[i].file)
  }

  function AllRecords(segs: seq<SegmentData>): seq<Rec> { SessionRecords(FilesOf(segs)) }

  /** The segment was opened with an index of its records, or with none. */
  ghost predicate Indexed(seg: SegmentData)
    reads seg.idx
  {
    && HEADER_SIZE <= |seg.file| < U64_MAX
    && Sorted(seg.idx.Points) && Faithful(seg.idx.Points, FileRecords(seg.file))
  }

  ghost predicate HasData(rs: seq<Rec>) { exists i :: 0 <= i < |rs| && HoldsData(rs[i]) }

  /** The segment holds data, and was opened with the time at which its data starts. */
  ghost predicate Dated(seg: SegmentData) {
    HasData(FileRecords(seg.file)) && seg.startNs == Least(FileRecords(seg.file))
  }

  /** Nothing compressed or damaged, rising timestamps, every channel known; segments may be empty. */
  ghost predicate Orderly(lib: Library, segs: seq<SegmentData>, channels: seq<u16>)
    reads set i | 0 <= i < |segs| :: segs[i].idx
  {
    && Plain(lib, AllRecords(segs)) && Rising(AllRecords(segs)) && Listed(AllRecords(segs), channels)
    && forall i :: 0 <= i < |segs| ==> Indexed(segs[i])
  }

  /** No timestamp occurs in two segments. */
  ghost predicate Apart(segs: seq<SegmentData>) {
    forall a, b, i, j ::
      0 <= a < b < |segs| && 0 <= i < |SegRecords(segs, a)| && 0 <= j < |SegRecords(segs, b)|
      && HoldsData(SegRecords(segs, a)[i]) && HoldsData(SegRecords(segs, b)[j]) ==>
        SegRecords(segs, a)[i].ts != SegRecords(segs, b)[j].ts
  }

  lemma {:induction false} AllRecordsConcat(a: seq<SegmentData>, b: seq<SegmentData>)
    ensures AllRecords(a + b) == AllRecords(a) + AllRecords(b)
    decreases |a|
  {
    hide FileRecords;
    if a == [] {
      assert a + b == b;
    } else {
      assert (a + b)[1..] == a[1..] + b;
      AllRecordsConcat(a[1..], b);
      Seqs.Regroup(FileRecords(a[0].file), AllRecords(a[1..]), AllRecords(b));
    }
  }

  /** The records of a session, seen from one segment. */
  lemma AroundSegment(segs: seq<SegmentData>, s: nat)
    requires s < |segs|
    ensures AllRecords(segs) == AllRecords(segs[..s]) + (SegRecords(segs, s) + AllRecords(segs[s + 1..]))
  {
    hide FileRecords;
    assert segs == segs[..s] + segs[s..];
    AllRecordsConcat(segs[..s], segs[s..]);
    assert segs[s..][1..] == segs[s + 1..];
  }

  /** Every record before segment s is in some earlier segment. */
  lemma {:induction false} EarlierRecord(segs: seq<SegmentData>, s: nat, r: Rec) returns (a: nat)
    requires s <= |segs| && r in AllRecords(segs[..s])
    ensures a < s && r in SegRecords(segs, a)
    decreases s
  {
    hide FileRecords;
    assert segs[..s] == segs[..s - 1] + [segs[s - 1]];
    AllRecordsConcat(segs[..s - 1], [segs[s - 1]]);
    OneFile(segs[s - 1]);
    if r in SegRecords(segs, s - 1) {
      a := s - 1;
    } else {
      a := EarlierRecord(segs, s - 1, r);
    }
  }

  lemma {:induction false} LeastIsReached(rs: seq<Rec>)
    ensures forall i :: 0 <= i < |rs| && HoldsData(rs[i]) ==> Least(rs) <= rs[i].ts
    ensures Least(rs) < U64_MAX ==> exists i :: 0 <= i < |rs| && HoldsData(rs[i]) && rs[i].ts == Least(rs)
    ensures HasData(rs) ==> exists i :: 0 <= i < |rs| && HoldsData(rs[i]) && rs[i].ts == Least(rs)
    decreases |rs|
  {
    hide HoldsData;
    if rs != [] {
      LeastIsReached(rs[..|rs| - 1]);
    }
  }

  // ----- where a seek lands in an orderly session -----

  lemma OffsetsFit(seg: SegmentData)
    requires Indexed(seg)
    ensures forall p :: p in seg.idx.Points ==> p.offset < U64_MAX
  {
    hide EncodeAll, PointsOf, Due, Sorted, Least, Tail, Records;
    var rs, body := FileRecords(seg.file), seg.file[HEADER_SIZE..];
    Walk(body);
    forall p | p in seg.idx.Points
      ensures p.offset < U64_MAX
    {
      var interval: u64 :| interval > 0 && multiset(seg.idx.Points) == multiset(PointsOf(interval, rs));
      SameMembers(seg.idx.Points, PointsOf(interval, rs));
      var i := PointsAreSound(interval, rs, p);
      OffsetsGrow(rs, i, |rs|);
      assert rs[..|rs|] == rs;
    }
  }

  lemma PartOf(lib: Library, a: seq<Rec>, b: seq<Rec>, channels: seq<u16>)
    requires Plain(lib, a + b) && Rising(a + b) && Listed(a + b, channels)
    ensures Plain(lib, a) && Rising(a) && Listed(a, channels)
    ensures Plain(lib, b) && Rising(b) && Listed(b, channels)
  {
    hide Intact, HoldsData;
    var all := a + b;
    assert forall i :: 0 <= i < |a| ==> all[i] == a[i];
    assert forall i :: 0 <= i < |b| ==> all[|a| + i] == b[i];
  }

  /** The records of an orderly session before and behind the place sought. */
  lemma SeekSplits(lib: Library, segs: seq<SegmentData>, channels: seq<u16>, target: u64) returns (i: nat)
    requires Orderly(lib, segs, channels) && segs != []
    ensures var s := SeekSegment(segs, target);
            && i <= |SegRecords(segs, s)|
            && AllRecords(segs) == AllRecords(segs[..s]) + (SegRecords(segs, s)[..i] + SoughtRecords(segs, channels, target))
            && forall k :: 0 <= k < i && HoldsData(SegRecords(segs, s)[k]) ==> SegRecords(segs, s)[k].ts < target
  {
    hide Plain, Rising, Listed, Intact, HoldsData, Sorted, Faithful, Least, SeeksTo, FileRecords, Records, From, EncodeAll, SeekOffset;
    var s := SeekSegment(segs, target);
    var rs, later := SegRecords(segs, s), AllRecords(segs[s + 1..]);
    AroundSegment(segs, s);
    PartOf(lib, AllRecords(segs[..s]), rs + later, channels);
    PartOf(lib, rs, later, channels);
    OffsetsFit(segs[s]);
    var offset := SeekOffset(segs[s].idx.Points, channels, target).GetOr(HEADER_SIZE);
    SeekOffsetSeeks(segs[s].idx.Points, channels, target);
    i := SeekWithinSegment(segs[s].idx.Points, rs, channels, target, offset);
    RecordsFrom(segs[s].file, i);
    assert rs == rs[..i] + rs[i..];
    Seqs.Regroup(rs[..i], rs[i..], later);
  }

  /** What an orderly session holds before the segment sought is no later than the target, when that segment holds data. */
  lemma EarlierIsUpTo(lib: Library, segs: seq<SegmentData>, channels: seq<u16>, target: u64, r: Rec)
    requires Orderly(lib, segs, channels) && segs != [] && Dated(segs[SeekSegment(segs, target)])
    requires var s := SeekSegment(segs, target); r in AllRecords(segs[..s]) && HoldsData(r)
    ensures var s := SeekSegment(segs, target); s > 0 && r.ts <= segs[s].startNs <= target
  {
    hide Plain, Listed, Intact, HoldsData, Sorted, Faithful, Least, FileRecords;
    var s := SeekSegment(segs, target);
    var earlier, rs := AllRecords(segs[..s]), SegRecords(segs, s);
    AroundSegment(segs, s);
    LeastIsReached(rs);
    var j :| 0 <= j < |rs| && HoldsData(rs[j]) && rs[j].ts == Least(rs);
    var i :| 0 <= i < |earlier| && earlier[i] == r;
    var all := AllRecords(segs);
    assert all[i] == r && all[|earlier| + j] == rs[j];
  }

  // ----- the indexed read -----

  /** What the options ask for in the segments before the one sought: a read by index does not see it. */
  function Missed(lib: Library, segs: seq<SegmentData>, o: ReadOptions): seq<Msg> {
    if segs == [] then [] else Filter(o, Msgs(lib, AllRecords(segs[..SeekSegment(segs, o.startNs)])))
  }

  /** What the options ask for from the segment sought on. */
  function Seen(lib: Library, segs: seq<SegmentData>, o: ReadOptions): seq<Msg> {
    if segs == [] then [] else Filter(o, Msgs(lib, AllRecords(segs[SeekSegment(segs, o.startNs)..])))
  }

  lemma {:induction false} FilterIsWanted(o: ReadOptions, ms: seq<Msg>)
    ensures forall m :: m in Filter(o, ms) ==> m in ms && Wanted(o, m)
  {
    if ms != [] {
      FilterIsWanted(o, ms[1..]);
    }
  }

  lemma {:induction false} FilterKeeps(o: ReadOptions, ms: seq<Msg>)
    ensures forall m :: m in ms && Wanted(o, m) ==> m in Filter(o, ms)
  {
    if ms != [] {
      FilterKeeps(o, ms[1..]);
    }
  }

  /**
   * Reading by index from a start time, against the linear filter of the whole session: what is
   * visited is the filtered stream from the segment sought on, cut where the callback stops. Neither
   * the offset from the index nor the early stop at the end time loses anything.
   */
  lemma ReadAgainstFilter(lib: Library, segs: seq<SegmentData>, channels: seq<u16>, o: ReadOptions, go: seq<Msg> -> bool)
    requires Orderly(lib, segs, channels) && segs != [] && o.startNs > 0
    ensures Filter(o, SessionMsgs(lib, FilesOf(segs))) == Missed(lib, segs, o) + Seen(lib, segs, o)
    ensures Scan(o, go, [], Msgs(lib, SoughtRecords(segs, channels, o.startNs))) == Visited(go, [], Seen(lib, segs, o))
  {
    hide Listed, Intact, HoldsData, Indexed, FileRecords, Rising, RecMsgs, SoughtRecords, Wanted, AllRecords, SegRecords;
    var s := SeekSegment(segs, o.startNs);
    var i := SeekSplits(lib, segs, channels, o.startNs);
    var earlier, jumped, ahead := AllRecords(segs[..s]), SegRecords(segs, s)[..i], SoughtRecords(segs, channels, o.startNs);
    assert AllRecords(segs) == earlier + (jumped + ahead);
    assert segs == segs[..s] + segs[s..];
    AllRecordsConcat(segs[..s], segs[s..]);
    Seqs.DropPrefix(earlier, AllRecords(segs[s..]));
    Seqs.DropPrefix(earlier, jumped + ahead);
    PartOf(lib, earlier, jumped + ahead, channels);
    PartOf(lib, jumped, ahead, channels);
    PlainMsgs(lib, jumped);
    PlainMsgs(lib, ahead);
    TooEarly(o, Msgs(lib, jumped));
    MsgsConcat(lib, earlier, jumped + ahead);
    MsgsConcat(lib, jumped, ahead);
    FilterConcat(o, Msgs(lib, earlier), Msgs(lib, jumped) + Msgs(lib, ahead));
    FilterConcat(o, Msgs(lib, jumped), Msgs(lib, ahead));
    assert [] + Filter(o, Msgs(lib, ahead)) == Filter(o, Msgs(lib, ahead));
    ScanIsFilter(o, go, [], Msgs(lib, ahead));
    AllRecordsAre(segs);
  }

  lemma AllRecordsAre(segs: seq<SegmentData>)
    ensures AllRecords(segs) == SessionRecords(FilesOf(segs))
  {
  }

  lemma TooEarly(o: ReadOptions, ms: seq<Msg>)
    requires o.startNs > 0 && forall m :: m in ms ==> m.ts < o.startNs
    ensures Filter(o, ms) == []
  {
    NoneWanted(o, ms);
  }

  lemma {:induction false} VisitsAll(done: seq<Msg>, ms: seq<Msg>)
    ensures Visited(_ => true, done, ms) == done + ms
    decreases |ms|
  {
    if ms != [] {
      VisitsAll(done + [ms[0]], ms[1..]);
      assert done + ms == (done + [ms[0]]) + ms[1..];
    }
  }

  /**
   * When the indexed read is complete: exactly when no message the options ask for lies in a segment
   * before the last one that starts at or before the start time.
   */
  lemma ReadIsComplete(lib: Library, segs: seq<SegmentData>, channels: seq<u16>, o: ReadOptions)
    requires Orderly(lib, segs, channels) && segs != [] && o.startNs > 0
    ensures Scan(o, _ => true, [], Msgs(lib, SoughtRecords(segs, channels, o.startNs))) == Filter(o, SessionMsgs(lib, FilesOf(segs)))
            <==> forall m :: m in Msgs(lib, AllRecords(segs[..SeekSegment(segs, o.startNs)])) ==> !Wanted(o, m)
  {
    hide Orderly, SoughtRecords, Scan, SeekSegment, AllRecords, FilesOf, Wanted;
    ReadAgainstFilter(lib, segs, channels, o, _ => true);
    var earlier, seen := Msgs(lib, AllRecords(segs[..SeekSegment(segs, o.startNs)])), Seen(lib, segs, o);
    VisitsAll([], seen);
    assert [] + seen == seen;
    if Missed(lib, segs, o) == [] {
      FilterKeeps(o, earlier);
    } else {
      FilterIsWanted(o, earlier);
      assert Missed(lib, segs, o)[0] in Missed(lib, segs, o);
    }
  }

  // ----- when the segment sought holds data: ties -----

  /** All a read then misses are messages tied with its start time across a segment boundary. */
  lemma MissedAreTies(lib: Library, segs: seq<SegmentData>, channels: seq<u16>, o: ReadOptions, m: Msg)
    requires Orderly(lib, segs, channels) && segs != [] && o.startNs > 0 && Dated(segs[SeekSegment(segs, o.startNs)])
    requires m in Missed(lib, segs, o)
    ensures var s := SeekSegment(segs, o.startNs); s > 0 && m.ts == o.startNs == segs[s].startNs
    ensures !Apart(segs)
  {
    hide Rising, Listed, Intact, HoldsData, Indexed, FileRecords, Filter, Msgs, SeekSegment;
    var s := SeekSegment(segs, o.startNs);
    var earlier, rs := AllRecords(segs[..s]), SegRecords(segs, s);
    FilterIsWanted(o, Msgs(lib, earlier));
    AroundSegment(segs, s);
    PartOf(lib, earlier, rs + AllRecords(segs[s + 1..]), channels);
    PlainMsgs(lib, earlier);
    var i :| 0 <= i < |earlier| && HoldsData(earlier[i]) && earlier[i].ts == m.ts;
    EarlierIsUpTo(lib, segs, channels, o.startNs, earlier[i]);
    var a := EarlierRecord(segs, s, earlier[i]);
    LeastIsReached(rs);
    var j :| 0 <= j < |rs| && HoldsData(rs[j]) && rs[j].ts == segs[s].startNs;
    var k :| 0 <= k < |SegRecords(segs, a)| && SegRecords(segs, a)[k] == earlier[i];
  }

  /**
   * The indexed read is the linear filter: with no timestamp in two segments, and data in the segment
   * sought, it visits exactly the messages of the whole session the options ask for.
   */
  lemma ReadIsFilter(lib: Library, segs: seq<SegmentData>, channels: seq<u16>, o: ReadOptions, go: seq<Msg> -> bool)
    requires Orderly(lib, segs, channels) && Apart(segs) && segs != [] && o.startNs > 0
    requires Dated(segs[SeekSegment(segs, o.startNs)])
    ensures Scan(o, go, [], Msgs(lib, SoughtRecords(segs, channels, o.startNs))) ==
            Visited(go, [], Filter(o, SessionMsgs(lib, FilesOf(segs))))
  {
    hide Orderly, Apart, SoughtRecords, Scan, Visited, Dated;
    ReadAgainstFilter(lib, segs, channels, o, go);
    var missed := Missed(lib, segs, o);
    if missed != [] {
      MissedAreTies(lib, segs, channels, o, missed[0]);
      assert false;
    }
    assert [] + Seen(lib, segs, o) == Seen(lib, segs, o);
  }

  /** With ties the read is complete exactly when no wanted message before the segment sought ties with the start time. */
  lemma ReadMissesTies(lib: Library, segs: seq<SegmentData>, channels: seq<u16>, o: ReadOptions)
    requires Orderly(lib, segs, channels) && segs != [] && o.startNs > 0 && Dated(segs[SeekSegment(segs, o.startNs)])
    ensures var earlier := Msgs(lib, AllRecords(segs[..SeekSegment(segs, o.startNs)]));
            Scan(o, _ => true, [], Msgs(lib, SoughtRecords(segs, channels, o.startNs))) == Filter(o, SessionMsgs(lib, FilesOf(segs)))
            <==> forall m :: m in earlier && m.ts == o.startNs ==> !Wanted(o, m)
  {
    hide Orderly, SoughtRecords, Scan, SeekSegment, AllRecords, FilesOf, Wanted, Dated, Msgs;
    ReadIsComplete(lib, segs, channels, o);
    var earlier := Msgs(lib, AllRecords(segs[..SeekSegment(segs, o.startNs)]));
    forall m | m in earlier && Wanted(o, m)
      ensures m.ts == o.startNs
    {
      FilterKeeps(o, earlier);
      MissedAreTies(lib, segs, channels, o, m);
    }
  }

  // ----- when the segment sought holds none: everything before it is missed -----

  lemma {:induction false} NoDataNoMsgs(lib: Library, rs: seq<Rec>)
    requires !HasData(rs)
    ensures Msgs(lib, rs) == []
    decreases |rs|
  {
    if rs != [] {
      assert !HoldsData(rs[0]) && forall i :: 0 <= i < |rs[1..]| ==> rs[1..][i] == rs[i + 1];
      NoDataNoMsgs(lib, rs[1..]);
    }
  }

  /** A segment without data that is sought adds nothing: a read visits what the segments behind it hold. */
  lemma EmptySegmentCaptures(lib: Library, segs: seq<SegmentData>, channels: seq<u16>, o: ReadOptions, go: seq<Msg> -> bool)
    requires Orderly(lib, segs, channels) && segs != [] && o.startNs > 0
    requires !HasData(FileRecords(segs[SeekSegment(segs, o.startNs)].file))
    ensures var s := SeekSegment(segs, o.startNs);
            Scan(o, go, [], Msgs(lib, SoughtRecords(segs, channels, o.startNs))) ==
            Visited(go, [], Filter(o, Msgs(lib, AllRecords(segs[s + 1..]))))
  {
    hide Orderly, FileRecords, HasData, SeekSegment, AllRecords, SoughtRecords, Visited, Msgs;
    var s := SeekSegment(segs, o.startNs);
    ReadAgainstFilter(lib, segs, channels, o, go);
    var later := segs[s + 1..];
    assert segs[s..] == [segs[s]] + later;
    AllRecordsConcat([segs[s]], later);
    AllRecordsAre([segs[s]]);
    OneFile(segs[s]);
    MsgsConcat(lib, FileRecords(segs[s].file), AllRecords(later));
    NoDataNoMsgs(lib, FileRecords(segs[s].file));
    assert [] + Msgs(lib, AllRecords(later)) == Msgs(lib, AllRecords(later));
  }

  /** A last segment without data that starts at 0 captures every read with a start time: it visits nothing, whatever the session holds. */
  lemma LastEmptySegmentCaptures(lib: Library, segs: seq<SegmentData>, channels: seq<u16>, o: ReadOptions, go: seq<Msg> -> bool)
    requires segs != [] && o.startNs > 0
    requires var last := segs[|segs| - 1]; last.startNs == 0 && last.idx.Points == [] && !HasData(FileRecords(last.file))
    ensures Scan(o, go, [], Msgs(lib, SoughtRecords(segs, channels, o.startNs))) == []
  {
    hide FileRecords, HasData;
    var s := |segs| - 1;
    assert segs[s + 1..] == [];
    NothingFound(channels, o.startNs);
    var rs := FileRecords(segs[s].file);
    assert SoughtRecords(segs, channels, o.startNs) == rs + [] by {
      assert FileRecords(segs[s].file) == Records(From(segs[s].file, HEADER_SIZE)) by { FileRecordsFrom(segs[s].file); }
    }
    assert rs + [] == rs;
    NoDataNoMsgs(lib, rs);
  }

  lemma FileRecordsFrom(file: bytes)
    ensures FileRecords(file) == Records(From(file, HEADER_SIZE))
  {
  }

  lemma {:induction false} NothingFound(channels: seq<u16>, target: u64)
    ensures SeekOffset([], channels, target) == None
    decreases |channels|
  {
    if channels != [] {
      NothingFound(channels[..|channels| - 1], target);
    }
  }
}
