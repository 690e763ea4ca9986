/** Merge: several sessions into one, in time order, channel by name. */
module Merging {
  import opened Bytes
  import opened Format
  import opened Outcomes
  import opened Routines
  import opened Stream
  import opened Recording
  import opened Lookup
  import opened Conservation
  import opened Runs
  import opened RoundTrip
  import opened Opening
  import opened Playback
  import opened Sessions
  import opened Interleaving
  import opened Inputs
  import opened ChannelMaps
  import opened Deliveries
  import Writer
  import Seqs

  // ----- pouring the streams into the destination -----

  function WriteCalls(clock: nat -> bool, ms: seq<Msg>): (calls: seq<Call>) {
    seq(|ms|, i requires 0 <= i < |ms| => WriteMessage(ms[i], clock(i)))
  }

  lemma WriteCallsSnoc(clock: nat -> bool, ms: seq<Msg>, m: Msg)
    ensures WriteCalls(clock, ms + [m]) == WriteCalls(clock, ms) + [WriteMessage(m, clock(|ms|))]
  {
  }

  /** The destination takes the next message of a run it takes as a whole. */
  lemma NextPermitted(c: Config, made: seq<Call>, clock: nat -> bool, written: seq<Msg>, m: Msg, all: seq<Msg>)
    requires Permitted(c, made + WriteCalls(clock, all)) && written + [m] <= all && Shaped(c, Opened(c))
    ensures Allowed(Run(c, Opened(c), made + WriteCalls(clock, written)), WriteMessage(m, clock(|written|)))
  {
    hide Opened, Allowed, Shaped;
    var call, rest := WriteMessage(m, clock(|written|)), WriteCalls(clock, all)[|written| + 1..];
    var before := made + WriteCalls(clock, written);
    WriteCallsSnoc(clock, written, m);
    assert all[..|written| + 1] == written + [m];
    assert WriteCalls(clock, all) == WriteCalls(clock, written + [m]) + rest;
    assert made + WriteCalls(clock, all) == (before + [call]) + rest;
    RunJoins(c, Opened(c), before + [call], rest);
    RunSnoc(c, Opened(c), before, call);
  }

  /** The head of each stream is held; the rest is what its reader still delivers. */
  ghost predicate AtHeads(readers: seq<Reader>, heads: seq<Option<Msg>>, streams: seq<seq<Msg>>)
    reads set i | 0 <= i < |readers| :: readers[i]
  {
    && |readers| == |heads| == |streams|
    && (forall i, j :: 0 <= i < j < |readers| ==> readers[i] != readers[j])
    && forall i :: 0 <= i < |readers| ==> AtHead(readers[i], heads[i], streams[i])
  }

  ghost predicate AtHead(r: Reader, head: Option<Msg>, stream: seq<Msg>)
    reads r
  {
    r.Valid() && match head case Some(m) => stream == [m] + r.Remaining() case None => stream == []
  }

  /** The reader whose held message goes next. */
  method SelectHead(heads: seq<Option<Msg>>, ghost streams: seq<seq<Msg>>) returns (best: Option<nat>)
    requires |heads| == |streams|
    requires forall i :: 0 <= i < |heads| ==> heads[i] == if streams[i] == [] then None else Some(streams[i][0])
    ensures best == Best(streams)
  {
    best := None;
    var bestTs := U64_MAX;
    for ri := 0 to |heads|
      invariant best == Best(streams[..ri])
      invariant bestTs == if best.Some? then streams[best.value][0].ts else U64_MAX
    {
      assert streams[..ri + 1][..ri] == streams[..ri];
      if heads[ri].Some? && heads[ri].value.ts < bestTs {
        bestTs := heads[ri].value.ts;
        best := Some(ri);
      }
    }
    assert streams[..|streams|] == streams;
  }

  lemma HeadsShow(readers: seq<Reader>, heads: seq<Option<Msg>>, streams: seq<seq<Msg>>)
    requires AtHeads(readers, heads, streams)
    ensures |readers| == |heads| == |streams|
    ensures forall i :: 0 <= i < |heads| ==> heads[i] == if streams[i] == [] then None else Some(streams[i][0])
  {
    hide Reader.Valid, Reader.Remaining;
    forall i | 0 <= i < |heads|
      ensures heads[i] == if streams[i] == [] then None else Some(streams[i][0])
    {
      assert AtHead(readers[i], heads[i], streams[i]);
    }
  }

  /** Fetches the next head of one reader; the others keep theirs. */
  method FetchHead(readers: seq<Reader>, heads: seq<Option<Msg>>, ri: nat, ghost streams: seq<seq<Msg>>) returns (heads': seq<Option<Msg>>)
    requires AtHeads(readers, heads, streams) && ri < |readers| && streams[ri] != []
    modifies readers[ri]
    ensures AtHeads(readers, heads', Without(streams, ri))
  {
    hide Reader.Valid, Reader.Remaining, Without;
    assert AtHead(readers[ri], heads[ri], streams[ri]);
    ghost var rest := streams[ri][1..];
    assert readers[ri].Remaining() == rest;
    var mv := readers[ri].NextMessage();
    heads' := heads[ri := mv];
    WithoutAt(streams, ri);
    assert AtHead(readers[ri], mv, rest);
    forall i | 0 <= i < |readers|
      ensures AtHead(readers[i], heads'[i], Without(streams, ri)[i])
    {
      if i != ri {
        assert old(AtHead(readers[i], heads[i], streams[i]));
      }
    }
  }

  lemma WithoutAt(streams: seq<seq<Msg>>, i: nat)
    requires i < |streams| && streams[i] != []
    ensures Without(streams, i) == streams[i := streams[i][1..]]
  {
  }

  /** Holds the first message of every reader. */
  method SeedHeads(readers: seq<Reader>, ghost streams: seq<seq<Msg>>) returns (heads: seq<Option<Msg>>)
    requires |readers| == |streams|
    requires forall i, j :: 0 <= i < j < |readers| ==> readers[i] != readers[j]
    requires forall i :: 0 <= i < |readers| ==> readers[i].Valid() && readers[i].Remaining() == streams[i]
    modifies set i | 0 <= i < |readers| :: readers[i]
    ensures AtHeads(readers, heads, streams)
  {
    hide Reader.Valid, Reader.Remaining;
    heads := [];
    for ri := 0 to |readers|
      invariant |heads| == ri
      invariant forall i :: 0 <= i < ri ==> AtHead(readers[i], heads[i], streams[i])
      invariant forall i :: ri <= i < |readers| ==> readers[i].Valid() && readers[i].Remaining() == streams[i]
    {
      label before:
      var mv := readers[ri].NextMessage();
      assert AtHead(readers[ri], mv, streams[ri]);
      forall i | 0 <= i < |readers| && i != ri
        ensures i < ri ==> AtHead(readers[i], heads[i], streams[i])
        ensures i > ri ==> readers[i].Valid() && readers[i].Remaining() == streams[i]
      {
        assert i < ri ==> old@before(AtHead(readers[i], heads[i], streams[i]));
      }
      heads := heads + [mv];
    }
  }

  // ----- the merge loop -----

  lemma PicksStep(progress: nat -> bool, done: nat, streams: seq<seq<Msg>>, b: nat)
    requires Best(streams) == Some(b)
    ensures var p, done' := Pick(b, streams[b][0]), done + |streams[b][0].data|;
            Picks(progress, done, streams) == [p] + if progress(done') then Picks(progress, done', Without(streams, b)) else []
  {
    hide Best, Without;
    var p := Pick(b, streams[b][0]);
    assert Order(streams) == [p] + Order(Without(streams, b));
    assert Order(streams)[1..] == Order(Without(streams, b));
  }

  lemma LandCons(links: seq<Link>, p: Pick, rest: seq<Pick>)
    ensures AllLand(links, [p] + rest) <==> Landed(links, p).Some? && AllLand(links, rest)
    ensures Routed(links, [p] + rest) == if Landed(links, p).None? then [] else [Landed(links, p).value] + Routed(links, rest)
  {
    hide Landed;
    assert ([p] + rest)[1..] == rest;
  }

  lemma NoPicks(links: seq<Link>, progress: nat -> bool, done: nat, streams: seq<seq<Msg>>)
    requires Best(streams).None?
    ensures Picks(progress, done, streams) == [] && AllLand(links, []) && Routed(links, []) == []
  {
  }

  lemma NothingWritten(clock: nat -> bool, made: seq<Call>)
    ensures made + WriteCalls(clock, []) == made
  {
  }

  lemma NothingMore(written: seq<Msg>)
    ensures written + [] == written
  {
  }

  lemma NothingLeft(links: seq<Link>)
    ensures AllLand(links, []) && Routed(links, []) == []
  {
  }

  lemma LandedAt(links: seq<Link>, source: nat, m: Msg, t: Option<nat>)
    requires t == Target(links, source, m.ch)
    ensures Landed(links, Pick(source, m)) == if t.Some? && t.value < 0x1_0000 then Some(Msg(t.value, m.ts, m.data)) else None
  {
  }

  lemma TargetWithin(links: seq<Link>, source: nat, ch: u16, n: nat)
    requires forall l :: 0 <= l < |links| ==> links[l].merged < n
    ensures Target(links, source, ch).Some? ==> Target(links, source, ch).value < n
  {
    TargetIsLink(links, source, ch);
  }

  lemma Strangers(w: Writer.RecorderSession, readers: seq<Reader>)
    ensures forall i :: 0 <= i < |readers| ==> readers[i] !in Footprint(w)
  {
  }

  lemma ChannelLimit(w: Writer.RecorderSession, made: seq<Call>)
    requires Driven(w, made)
    ensures |w.L.channels| <= 0xFFFE
  {
    DrivenFacts(w, made);
  }

  /** Writes one message to the destination. */
  method WritePick(w: Writer.RecorderSession, m: Msg, timeUp: bool, ghost clock: nat -> bool, ghost made: seq<Call>, ghost written: seq<Msg>)
    requires Driven(w, made + WriteCalls(clock, written)) && timeUp == clock(|written|)
    requires m.ch < |w.L.channels| && Allowed(w.L, WriteMessage(m, timeUp))
    modifies Footprint(w)
    ensures Driven(w, made + WriteCalls(clock, written + [m]))
    ensures forall o :: o in Footprint(w) ==> o in old(Footprint(w)) || fresh(o)
    ensures w.L.channels == old(w.L.channels) && w.Accepted == old(w.Accepted) + [m]
  {
    hide Driven, Footprint, WriteCalls, Allowed, After, Shaped, Taken;
    ghost var L := w.L;
    DrivenFacts(w, made + WriteCalls(clock, written));
    WriteCallsSnoc(clock, written, m);
    Seqs.Regroup(made, WriteCalls(clock, written), [WriteMessage(m, timeUp)]);
    var taken := Step(w, WriteMessage(m, timeUp), made + WriteCalls(clock, written));
    WriteKeepsChannels(w.Cfg, L, m, timeUp);
  }

  lemma WriteKeepsChannels(c: Config, L: Log, m: Msg, timeUp: bool)
    requires Shaped(c, L)
    ensures After(c, L, WriteMessage(m, timeUp)).channels == L.channels
    ensures Taken(L, WriteMessage(m, timeUp)) == if m.ch < |L.channels| then [m] else []
  {
    hide Write;
  }

  /** Every link leads to one of n destination channels, which are numbered by position. */
  ghost predicate LinksTo(links: seq<Link>, dstIds: seq<u16>, n: nat) {
    && (forall l :: 0 <= l < |links| ==> links[l].merged < n)
    && |dstIds| == n && forall i :: 0 <= i < n ==> dstIds[i] == i
  }

  /** Looks up where the held message of one reader goes, and writes it there. */
  method WriteHead(w: Writer.RecorderSession, mv: Msg, b: nat, links: seq<Link>, dstIds: seq<u16>, timeUp: bool,
                   ghost clock: nat -> bool, ghost made: seq<Call>, ghost written: seq<Msg>)
      returns (landed: Option<Msg>)
    requires Driven(w, made + WriteCalls(clock, written)) && timeUp == clock(|written|)
    requires Landed(links, Pick(b, mv)).Some? ==> Allowed(w.L, WriteMessage(Landed(links, Pick(b, mv)).value, timeUp))
    requires LinksTo(links, dstIds, |w.L.channels|)
    modifies Footprint(w)
    ensures landed == Landed(links, Pick(b, mv))
    ensures Driven(w, made + WriteCalls(clock, if landed.Some? then written + [landed.value] else written))
    ensures forall o :: o in Footprint(w) ==> o in old(Footprint(w)) || fresh(o)
    ensures w.L.channels == old(w.L.channels)
    ensures w.Accepted == if landed.Some? then old(w.Accepted) + [landed.value] else old(w.Accepted)
  {
    hide Driven, Footprint, WriteCalls, Target, Landed, Shaped, Opened, AllAllowed, Runs.Accepted, Allowed;
    var t := FindTarget(links, b, mv.ch);
    LandedAt(links, b, mv, t);
    if t.None? {
      return None;
    }
    TargetWithin(links, b, mv.ch, |w.L.channels|);
    ChannelLimit(w, made + WriteCalls(clock, written));
    var m := Msg(dstIds[t.value], mv.ts, mv.data);
    WritePick(w, m, timeUp, clock, made, written);
    landed := Some(m);
  }

  /** What has been written, and what the current streams will still give, is what the initial streams give. */
  ghost predicate OnCourse(links: seq<Link>, progress: nat -> bool, streams: seq<seq<Msg>>, done: nat, cur: seq<seq<Msg>>, written: seq<Msg>) {
    && written + Routed(links, Picks(progress, done, cur)) == Routed(links, Picks(progress, 0, streams))
    && (AllLand(links, Picks(progress, done, cur)) <==> AllLand(links, Picks(progress, 0, streams)))
  }

  /** The writes are complete, and whether every message had a destination. */
  ghost predicate Arrived(links: seq<Link>, progress: nat -> bool, streams: seq<seq<Msg>>, written: seq<Msg>, ok: bool) {
    written == Routed(links, Picks(progress, 0, streams)) && (ok <==> AllLand(links, Picks(progress, 0, streams)))
  }

  lemma Departure(links: seq<Link>, progress: nat -> bool, streams: seq<seq<Msg>>)
    ensures OnCourse(links, progress, streams, 0, streams, [])
  {
    assert [] + Routed(links, Picks(progress, 0, streams)) == Routed(links, Picks(progress, 0, streams));
  }

  lemma Exhausted(links: seq<Link>, progress: nat -> bool, streams: seq<seq<Msg>>, done: nat, cur: seq<seq<Msg>>, written: seq<Msg>)
    requires OnCourse(links, progress, streams, done, cur, written) && Best(cur).None?
    ensures Arrived(links, progress, streams, written, true)
  {
    hide Picks, Routed, AllLand;
    NoPicks(links, progress, done, cur);
    assert written + [] == written;
  }

  lemma CourseStep(links: seq<Link>, progress: nat -> bool, streams: seq<seq<Msg>>, done: nat, cur: seq<seq<Msg>>, written: seq<Msg>, b: nat)
    requires OnCourse(links, progress, streams, done, cur, written) && Best(cur) == Some(b)
    ensures var landed, done' := Landed(links, Pick(b, cur[b][0])), done + |cur[b][0].data|;
            && (landed.None? ==> Arrived(links, progress, streams, written, false))
            && (landed.Some? ==> written + [landed.value] <= Routed(links, Picks(progress, 0, streams)))
            && (landed.Some? && !progress(done') ==> Arrived(links, progress, streams, written + [landed.value], true))
            && (landed.Some? && progress(done') ==> OnCourse(links, progress, streams, done', Without(cur, b), written + [landed.value]))
  {
    hide Picks, Routed, AllLand, Landed, Without, Best;
    var landed, done' := Landed(links, Pick(b, cur[b][0])), done + |cur[b][0].data|;
    var rest := if progress(done') then Picks(progress, done', Without(cur, b)) else [];
    PicksStep(progress, done, cur, b);
    LandCons(links, Pick(b, cur[b][0]), rest);
    NothingLeft(links);
    assert written + [] == written;
    if landed.Some? {
      Seqs.Regroup(written, [landed.value], Routed(links, rest));
      assert (written + [landed.value]) + [] == written + [landed.value];
    }
  }

  /** The message that goes next, and the reader it is from. */
  method NextHead(readers: seq<Reader>, heads: seq<Option<Msg>>, ghost cur: seq<seq<Msg>>) returns (best: Option<nat>, mv: Msg)
    requires AtHeads(readers, heads, cur)
    ensures best == Best(cur)
    ensures best.Some? ==> best.value < |cur| == |readers| == |heads| && cur[best.value] != [] && mv == cur[best.value][0]
  {
    hide AtHeads, Best;
    HeadsShow(readers, heads, cur);
    best := SelectHead(heads, cur);
    mv := if best.Some? then heads[best.value].value else Msg(INVALID_CHANNEL, 0, []);
  }

  lemma HeadPermitted(w: Writer.RecorderSession, made: seq<Call>, clock: nat -> bool, written: seq<Msg>, landed: Option<Msg>, all: seq<Msg>)
    requires Driven(w, made + WriteCalls(clock, written)) && Permitted(w.Cfg, made + WriteCalls(clock, all))
    requires landed.Some? ==> written + [landed.value] <= all
    ensures landed.Some? ==> Allowed(w.L, WriteMessage(landed.value, clock(|written|)))
  {
    hide Driven, WriteCalls, Permitted, Opened, Shaped, Allowed;
    if landed.Some? {
      AtRun(w, made + WriteCalls(clock, written));
      NextPermitted(w.Cfg, made, clock, written, landed.value, all);
    }
  }

  lemma AtRun(w: Writer.RecorderSession, made: seq<Call>)
    requires Driven(w, made)
    ensures |w.Cfg.sessionId| == 16 && Shaped(w.Cfg, Opened(w.Cfg)) && w.L == Run(w.Cfg, Opened(w.Cfg), made)
  {
  }

  /** Writes the head where it goes, when it goes anywhere, as the next of all writes. */
  method WriteFitting(w: Writer.RecorderSession, mv: Msg, b: nat, links: seq<Link>, dstIds: seq<u16>, timeUp: bool,
                      ghost clock: nat -> bool, ghost made: seq<Call>, ghost base: seq<Msg>, ghost written: seq<Msg>, ghost all: seq<Msg>)
      returns (landed: seq<Msg>)
    requires Driven(w, made + WriteCalls(clock, written)) && timeUp == clock(|written|) && w.Accepted == base + written
    requires Landed(links, Pick(b, mv)).Some? ==> written + [Landed(links, Pick(b, mv)).value] <= all
    requires Permitted(w.Cfg, made + WriteCalls(clock, all)) && LinksTo(links, dstIds, |w.L.channels|)
    modifies Footprint(w)
    ensures forall o :: o in Footprint(w) ==> o in old(Footprint(w)) || fresh(o)
    ensures landed == if Landed(links, Pick(b, mv)).Some? then [Landed(links, Pick(b, mv)).value] else []
    ensures w.L.channels == old(w.L.channels) && w.Accepted == base + (written + landed)
    ensures Driven(w, made + WriteCalls(clock, written + landed))
  {
    hide *;
    NothingMore(written);
    HeadPermitted(w, made, clock, written, Landed(links, Pick(b, mv)), all);
    var m := WriteHead(w, mv, b, links, dstIds, timeUp, clock, made, written);
    landed := if m.None? then [] else [m.value];
    Seqs.Regroup(base, written, landed);
  }

  /** Writes the head that goes next, and decides whether the loop goes on. */
  method WriteNext(w: Writer.RecorderSession, mv: Msg, b: nat, links: seq<Link>, dstIds: seq<u16>,
                   progress: nat -> bool, bytesProcessed: nat, timeUp: bool,
                   ghost clock: nat -> bool, ghost made: seq<Call>, ghost base: seq<Msg>, ghost streams: seq<seq<Msg>>,
                   ghost cur: seq<seq<Msg>>, ghost written: seq<Msg>)
      returns (over: Option<Status>, bytes': nat, landed: seq<Msg>)
    requires Driven(w, made + WriteCalls(clock, written)) && timeUp == clock(|written|) && w.Accepted == base + written
    requires Best(cur) == Some(b) && mv == cur[b][0] && OnCourse(links, progress, streams, bytesProcessed, cur, written)
    requires Permitted(w.Cfg, made + WriteCalls(clock, Routed(links, Picks(progress, 0, streams))))
    requires LinksTo(links, dstIds, |w.L.channels|)
    modifies Footprint(w)
    ensures forall o :: o in Footprint(w) ==> o in old(Footprint(w)) || fresh(o)
    ensures w.L.channels == old(w.L.channels) && w.Accepted == base + (written + landed)
    ensures Driven(w, made + WriteCalls(clock, written + landed))
    ensures over.None? ==> |landed| == 1 && OnCourse(links, progress, streams, bytes', Without(cur, b), written + landed)
    ensures over.Some? ==>
              && (over.value == Ok || over.value == ErrorCorrupted)
              && Arrived(links, progress, streams, written + landed, over.value == Ok)
  {
    hide *;
    CourseStep(links, progress, streams, bytesProcessed, cur, written, b);
    NothingMore(written);
    landed := WriteFitting(w, mv, b, links, dstIds, timeUp, clock, made, base, written, Routed(links, Picks(progress, 0, streams)));
    if |landed| == 0 {
      return Some(ErrorCorrupted), bytesProcessed, [];
    }
    bytes' := bytesProcessed + |mv.data|;
    over := if progress(bytes') then None else Some(Ok);
  }

  /** One round of the loop: the next message in order is written, or the loop is over. */
  method MergeNext(w: Writer.RecorderSession, readers: seq<Reader>, heads: seq<Option<Msg>>, links: seq<Link>, dstIds: seq<u16>,
                   progress: nat -> bool, bytesProcessed: nat, timeUp: bool,
                   ghost clock: nat -> bool, ghost made: seq<Call>, ghost base: seq<Msg>, ghost streams: seq<seq<Msg>>,
                   ghost cur: seq<seq<Msg>>, ghost written: seq<Msg>)
      returns (over: Option<Status>, b: nat, bytes': nat, landed: seq<Msg>)
    requires Driven(w, made + WriteCalls(clock, written)) && timeUp == clock(|written|) && w.Accepted == base + written
    requires AtHeads(readers, heads, cur) && OnCourse(links, progress, streams, bytesProcessed, cur, written)
    requires Permitted(w.Cfg, made + WriteCalls(clock, Routed(links, Picks(progress, 0, streams))))
    requires LinksTo(links, dstIds, |w.L.channels|)
    modifies Footprint(w)
    ensures forall o :: o in Footprint(w) ==> o in old(Footprint(w)) || fresh(o)
    ensures w.L.channels == old(w.L.channels) && w.Accepted == base + (written + landed)
    ensures Driven(w, made + WriteCalls(clock, written + landed)) && AtHeads(readers, heads, cur)
    ensures over.None? ==>
              && |landed| == 1 && b < |cur| == |readers| && cur[b] != []
              && OnCourse(links, progress, streams, bytes', Without(cur, b), written + landed)
              && Total(Without(cur, b)) < Total(cur)
    ensures over.Some? ==>
              && (over.value == Ok || over.value == ErrorCorrupted)
              && Arrived(links, progress, streams, written + landed, over.value == Ok)
  {
    hide *;
    var best, mv := NextHead(readers, heads, cur);
    if best.None? {
      Exhausted(links, progress, streams, bytesProcessed, cur, written);
      NothingMore(written);
      return Some(Ok), 0, bytesProcessed, [];
    }
    b := best.value;
    Strangers(w, readers);
    over, bytes', landed :=
      WriteNext(w, mv, b, links, dstIds, progress, bytesProcessed, timeUp, clock, made, base, streams, cur, written);
  }

  /**
   * Writes the streams to the destination in merged order, until they end, a message has no
   * destination, or the progress callback cancels.
   */
  method MergeStreams(w: Writer.RecorderSession, readers: seq<Reader>, links: seq<Link>, dstIds: seq<u16>,
                      progress: nat -> bool, clock: nat -> bool, ghost made: seq<Call>, ghost streams: seq<seq<Msg>>)
      returns (st: Status, totalMessages: nat)
    requires Driven(w, made)
    requires |readers| == |streams|
    requires forall i, j :: 0 <= i < j < |readers| ==> readers[i] != readers[j]
    requires forall i :: 0 <= i < |readers| ==> readers[i].Valid() && readers[i].Remaining() == streams[i]
    requires Permitted(w.Cfg, made + WriteCalls(clock, Routed(links, Picks(progress, 0, streams))))
    requires LinksTo(links, dstIds, |w.L.channels|)
    modifies Footprint(w), set i | 0 <= i < |readers| :: readers[i]
    ensures st == if AllLand(links, Picks(progress, 0, streams)) then Ok else ErrorCorrupted
    ensures totalMessages == |Routed(links, Picks(progress, 0, streams))|
    ensures Driven(w, made + WriteCalls(clock, Routed(links, Picks(progress, 0, streams))))
    ensures w.L.channels == old(w.L.channels) && w.Accepted == old(w.Accepted) + Routed(links, Picks(progress, 0, streams))
    ensures forall o :: o in Footprint(w) ==> o in old(Footprint(w)) || fresh(o)
  {
    hide Driven, Footprint, AtHeads, Opened, AllAllowed, Runs.Accepted, Reader.Valid, Reader.Remaining, Picks, Routed, AllLand,
      Permitted, WriteCalls, Total, Shaped, OnCourse, Without, LinksTo;
    var heads := SeedHeads(readers, streams);
    ghost var cur, written, base := streams, [], w.Accepted;
    var bytesProcessed: nat := 0;
    totalMessages := 0;
    NothingWritten(clock, made);
    Departure(links, progress, streams);
    assert w.Accepted + [] == w.Accepted;
    var over: Option<Status> := None;
    while over.None?
      invariant Driven(w, made + WriteCalls(clock, written)) && w.Accepted == base + written
      invariant forall o :: o in Footprint(w) ==> o in old(Footprint(w)) || fresh(o)
      invariant w.L.channels == old(w.L.channels) && totalMessages == |written|
      invariant over.None? ==>
                  AtHeads(readers, heads, cur) && OnCourse(links, progress, streams, bytesProcessed, cur, written)
      invariant over.Some? ==>
                  (over.value == Ok || over.value == ErrorCorrupted) && Arrived(links, progress, streams, written, over.value == Ok)
      decreases over.None?, Total(cur)
    {
      var b, landed;
      over, b, bytesProcessed, landed :=
        MergeNext(w, readers, heads, links, dstIds, progress, bytesProcessed, clock(totalMessages), clock, made, base, streams, cur, written);
      written := written + landed;
      totalMessages := totalMessages + |landed|;
      if over.None? {
        heads := FetchHead(readers, heads, b, cur);
        cur := Without(cur, b);
      }
    }
    st := over.value;
  }

  // ----- channels and annotations of the destination -----

  function DefineCalls(channels: seq<ChannelDef>): seq<Call> {
    if channels == [] then [] else DefineCalls(channels[..|channels| - 1]) + [DefineChannel(channels[|channels| - 1])]
  }

  /** The channel definitions the recorder accepts: all named, and not too many. */
  predicate Definable(channels: seq<ChannelDef>) {
    |channels| <= 0xFFFE && forall i :: 0 <= i < |channels| ==> channels[i].name != []
  }

  /** The destination's channels are these, numbered by position. */
  ghost predicate Numbered(L: Log, channels: seq<ChannelDef>) {
    |L.channels| == |channels| && forall i :: 0 <= i < |channels| ==> L.channels[i] == channels[i].(id := L.channels[i].id)
  }

  /** Definitions that fit their records. */
  ghost predicate DefsFit(channels: seq<ChannelDef>) {
    forall i :: 0 <= i < |channels| ==> channels[i].compression <= CODEC_ZSTD && |StoredDef(channels[i])| < 0x1_0000_0000
  }

  lemma {:induction false} DefinesSized(c: Config, L: Log, channels: seq<ChannelDef>)
    requires Shaped(c, L) && AllAllowed(c, L, DefineCalls(channels))
    ensures DefsFit(channels)
    decreases |channels|
  {
    hide StoredDef, Shaped, After;
    if channels != [] {
      var n := |channels| - 1;
      RunSnoc(c, L, DefineCalls(channels[..n]), DefineChannel(channels[n]));
      DefinesSized(c, L, channels[..n]);
    }
  }

  /** Defines one more channel of the destination. */
  method DefineNext(w: Writer.RecorderSession, channels: seq<ChannelDef>, i: nat) returns (st: Status, id: u16, ghost made: seq<Call>)
    requires i < |channels| && DistinctNames(channels) && DefsFit(channels)
    requires Driven(w, DefineCalls(channels[..i])) && w.Accepted == [] && Definable(channels[..i]) && Numbered(w.L, channels[..i])
    modifies Footprint(w)
    ensures Driven(w, made)
    ensures st == Ok ==>
              && id == i && made == DefineCalls(channels[..i + 1])
              && Definable(channels[..i + 1]) && Numbered(w.L, channels[..i + 1])
    ensures st != Ok ==> st == ErrorInvalidArg && !Definable(channels)
    ensures forall o :: o in Footprint(w) ==> o in old(Footprint(w)) || fresh(o)
    ensures w.Accepted == []
  {
    hide Driven, Footprint, Opened, AllAllowed, Runs.Accepted, StoredDef, Shaped, Numbered, Definable, Writer.DefineOutcome, After;
    ghost var before, L := DefineCalls(channels[..i]), w.L;
    assert channels[..i + 1][..i] == channels[..i];
    DrivenFacts(w, before);
    st, id := StepDefine(w, channels[i], before);
    made := before + [DefineChannel(channels[i])];
    DefineNumbers(w.Cfg, L, channels, i, st, id);
  }

  method DefineAll(w: Writer.RecorderSession, channels: seq<ChannelDef>) returns (st: Status, dstIds: seq<u16>, ghost made: seq<Call>)
    requires Driven(w, []) && w.L.channels == [] && w.Accepted == [] && DistinctNames(channels) && DefsFit(channels)
    modifies Footprint(w)
    ensures st == if Definable(channels) then Ok else ErrorInvalidArg
    ensures Driven(w, made) && w.Accepted == []
    ensures st == Ok ==>
              && made == DefineCalls(channels) && Numbered(w.L, channels)
              && |dstIds| == |channels| && forall i :: 0 <= i < |dstIds| ==> dstIds[i] == i
    ensures forall o :: o in Footprint(w) ==> o in old(Footprint(w)) || fresh(o)
  {
    hide Driven, Footprint, Opened, AllAllowed, Runs.Accepted, StoredDef, Shaped, DistinctNames, DefsFit;
    dstIds, made := [], [];
    assert channels[..0] == [];
    for i := 0 to |channels|
      invariant Driven(w, made) && made == DefineCalls(channels[..i]) && w.Accepted == [] && Definable(channels[..i])
      invariant Numbered(w.L, channels[..i])
      invariant |dstIds| == i && forall k :: 0 <= k < i ==> dstIds[k] == k
      invariant forall o :: o in Footprint(w) ==> o in old(Footprint(w)) || fresh(o)
    {
      var id;
      st, id, made := DefineNext(w, channels, i);
      if st != Ok {
        return;
      }
      dstIds := dstIds + [id];
    }
    assert channels[..|channels|] == channels;
    st := Ok;
  }

  lemma DefineNumbers(c: Config, L: Log, channels: seq<ChannelDef>, i: nat, st: Status, id: u16)
    requires Shaped(c, L) && i < |channels| && DistinctNames(channels) && Numbered(L, channels[..i]) && Definable(channels[..i])
    requires Writer.DefineOutcome(L, channels[i], st, id)
    ensures st != Ok ==> !Definable(channels) && st == ErrorInvalidArg
    ensures st == Ok ==> id == i && Definable(channels[..i + 1]) && Numbered(After(c, L, DefineChannel(channels[i])), channels[..i + 1])
  {
    assert forall k :: 0 <= k < i ==> L.channels[k].name == channels[..i][k].name == channels[k].name;
    assert channels[i] == channels[..i + 1][i];
  }

  /** Sorted by time, keeping the order of equal ones. */
  function InsertNote(notes: seq<Note>, n: Note): seq<Note> {
    if notes == [] || n.ts >= notes[|notes| - 1].ts then notes + [n]
    else InsertNote(notes[..|notes| - 1], n) + [notes[|notes| - 1]]
  }

  function SortedNotes(notes: seq<Note>): seq<Note> {
    if notes == [] then [] else InsertNote(SortedNotes(notes[..|notes| - 1]), notes[|notes| - 1])
  }

  ghost predicate NotesInOrder(notes: seq<Note>) { forall i, j :: 0 <= i < j < |notes| ==> notes[i].ts <= notes[j].ts }

  lemma {:induction false} InsertNoteAdds(notes: seq<Note>, n: Note)
    ensures multiset(InsertNote(notes, n)) == multiset(notes) + multiset{n}
    decreases |notes|
  {
    if !(notes == [] || n.ts >= notes[|notes| - 1].ts) {
      assert notes == notes[..|notes| - 1] + [notes[|notes| - 1]];
      InsertNoteAdds(notes[..|notes| - 1], n);
    }
  }

  lemma {:induction false} InsertNoteSorts(notes: seq<Note>, n: Note)
    requires NotesInOrder(notes)
    ensures NotesInOrder(InsertNote(notes, n))
    decreases |notes|
  {
    if !(notes == [] || n.ts >= notes[|notes| - 1].ts) {
      var last, rest := notes[|notes| - 1], notes[..|notes| - 1];
      InsertNoteSorts(rest, n);
      InsertNoteAdds(rest, n);
      forall k | 0 <= k < |InsertNote(rest, n)|
        ensures InsertNote(rest, n)[k].ts <= last.ts
      {
        assert InsertNote(rest, n)[k] in multiset(InsertNote(rest, n));
      }
    }
  }

  /** The annotations are all there, in time order. */
  lemma {:induction false} NotesAreSorted(notes: seq<Note>)
    ensures NotesInOrder(SortedNotes(notes)) && multiset(SortedNotes(notes)) == multiset(notes)
    decreases |notes|
  {
    if notes != [] {
      var n := |notes| - 1;
      NotesAreSorted(notes[..n]);
      InsertNoteSorts(SortedNotes(notes[..n]), notes[n]);
      InsertNoteAdds(SortedNotes(notes[..n]), notes[n]);
      assert notes == notes[..n] + [notes[n]];
    }
  }

  function NoteCalls(notes: seq<Note>): seq<Call> {
    if notes == [] then []
    else
      var n := notes[|notes| - 1];
      NoteCalls(notes[..|notes| - 1]) + [AddAnnotation(n.ts, n.text, n.metadata)]
  }

  ghost predicate NoteFits(n: Note) { |n.text| <= 0xFFFF && |StoredAnnotation(n.text, n.metadata)| < 0x1_0000_0000 }

  /** An annotation that was read fits a record again. */
  lemma {:induction false} ReadNotesFit(rs: seq<Rec>)
    requires AllFramed(rs)
    ensures forall n :: n in Notes(rs) ==> NoteFits(n)
    decreases |rs|
  {
    hide U16, U32;
    if rs != [] {
      var r := rs[|rs| - 1];
      ReadNotesFit(rs[..|rs| - 1]);
      assert Framed(r);
    }
  }

  lemma {:induction false} SessionIsFramed(files: seq<bytes>)
    ensures AllFramed(SessionRecords(files))
    decreases |files|
  {
    hide Records, Framed;
    if files != [] {
      SessionIsFramed(files[1..]);
      Walk(From(files[0], HEADER_SIZE));
    }
  }

  method AnnotateAll(w: Writer.RecorderSession, notes: seq<Note>, ghost made: seq<Call>)
    requires Driven(w, made) && forall i :: 0 <= i < |notes| ==> NoteFits(notes[i])
    modifies Footprint(w)
    ensures Driven(w, made + NoteCalls(notes)) && w.Accepted == old(w.Accepted)
    ensures forall o :: o in Footprint(w) ==> o in old(Footprint(w)) || fresh(o)
  {
    hide Driven, Footprint, Opened, AllAllowed, Runs.Accepted, StoredAnnotation, Shaped, After;
    assert made + NoteCalls(notes[..0]) == made;
    for i := 0 to |notes|
      invariant Driven(w, made + NoteCalls(notes[..i])) && w.Accepted == old(w.Accepted)
      invariant forall o :: o in Footprint(w) ==> o in old(Footprint(w)) || fresh(o)
    {
      assert notes[..i + 1][..i] == notes[..i];
      var call := AddAnnotation(notes[i].ts, notes[i].text, notes[i].metadata);
      Seqs.Regroup(made, NoteCalls(notes[..i]), [call]);
      assert NoteFits(notes[i]);
      var taken := Step(w, call, made + NoteCalls(notes[..i]));
    }
    assert notes[..|notes|] == notes;
  }

  // ----- the whole merge -----

  datatype MergeOptions = MergeOptions(maxSegmentBytes: nat, mergeDuplicates: bool, includeAnnotations: bool)

  /** The configuration of a written session: checksums on, rotation by size only. */
  function OutputConfig(env: Config, maxSegmentBytes: nat): Config {
    env.(crcEnabled := true, singleFile := false, maxBytes := maxSegmentBytes, maxDurationNs := 0, intervalNs := 1_000_000_000)
  }

  function ChannelLists(inputs: seq<Input>): (r: seq<seq<ChannelDef>>)
    ensures |r| == |inputs|
    ensures forall i :: 0 <= i < |inputs| ==> r[i] == ChannelsOf(inputs[i])
  {
    seq(|inputs|, i requires 0 <= i < |inputs| => ChannelsOf(inputs[i]))
  }

  function Streams(lib: Library, inputs: seq<Input>): (r: seq<seq<Msg>>)
    ensures |r| == |inputs|
    ensures forall i :: 0 <= i < |inputs| ==> r[i] == StreamOf(lib, inputs[i])
  {
    seq(|inputs|, i requires 0 <= i < |inputs| => StreamOf(lib, inputs[i]))
  }

  function AllNotes(inputs: seq<Input>): seq<Note> {
    if inputs == [] then [] else AllNotes(inputs[..|inputs| - 1]) + NotesOf(inputs[|inputs| - 1])
  }

  lemma {:induction false} AllNotesJoin(a: seq<Input>, b: seq<Input>)
    ensures AllNotes(a + b) == AllNotes(a) + AllNotes(b)
    decreases |b|
  {
    hide NotesOf;
    if b == [] {
      assert a + b == a;
    } else {
      var n := |b| - 1;
      assert (a + b)[..|a + b| - 1] == a + b[..n];
      AllNotesJoin(a, b[..n]);
      Seqs.Regroup(AllNotes(a), AllNotes(b[..n]), NotesOf(b[n]));
    }
  }

  /** The annotations of input i stand in one piece behind those of the inputs before. */
  lemma AllNotesOf(inputs: seq<Input>, i: nat)
    requires i < |inputs|
    ensures AllNotes(inputs) == AllNotes(inputs[..i]) + (NotesOf(inputs[i]) + AllNotes(inputs[i + 1..]))
  {
    hide NotesOf;
    var front, back := inputs[..i + 1], inputs[i + 1..];
    assert inputs == front + back && front[..i] == inputs[..i];
    AllNotesJoin(front, back);
    Seqs.Regroup(AllNotes(inputs[..i]), NotesOf(inputs[i]), AllNotes(back));
  }

  /** What the destination receives. */
  function MergedWrites(lib: Library, inputs: seq<Input>, opts: MergeOptions, progress: nat -> bool): seq<Msg> {
    Routed(MapOf(ChannelLists(inputs), opts.mergeDuplicates).links, Picks(progress, 0, Streams(lib, inputs)))
  }

  function MergeCalls(lib: Library, inputs: seq<Input>, opts: MergeOptions, progress: nat -> bool, clock: nat -> bool): seq<Call> {
    DefineCalls(MapOf(ChannelLists(inputs), opts.mergeDuplicates).channels)
    + WriteCalls(clock, MergedWrites(lib, inputs, opts, progress))
    + NoteCalls(if opts.includeAnnotations then SortedNotes(AllNotes(inputs)) else [])
  }

  function MergeStatus(lib: Library, inputs: seq<Input>, opts: MergeOptions, progress: nat -> bool): Status {
    var m := MapOf(ChannelLists(inputs), opts.mergeDuplicates);
    if inputs == [] then ErrorInvalidArg
    else if OpenAllStatus(inputs) != Ok then OpenAllStatus(inputs)
    else if !m.ok || !Definable(m.channels) then ErrorInvalidArg
    else if !AllLand(m.links, Picks(progress, 0, Streams(lib, inputs))) then ErrorCorrupted
    else Ok
  }

  /** Everything the destination is told fits its fields. */
  ghost predicate Mergeable(env: Config, inputs: seq<Input>, opts: MergeOptions, progress: nat -> bool, clock: nat -> bool) {
    Permitted(OutputConfig(env, opts.maxSegmentBytes), MergeCalls(env.lib, inputs, opts, progress, clock))
  }

  /** Collects the annotations of all sources. */
  method CollectNotes(readers: seq<Reader>, ghost inputs: seq<Input>) returns (notes: seq<Note>)
    requires |readers| == |inputs| && forall i :: 0 <= i < |readers| ==> readers[i].Annots == NotesOf(inputs[i])
    ensures notes == SortedNotes(AllNotes(inputs))
  {
    hide NotesOf;
    var all := [];
    assert inputs[..0] == [];
    for i := 0 to |readers|
      invariant all == AllNotes(inputs[..i])
    {
      assert inputs[..i + 1][..i] == inputs[..i];
      all := all + readers[i].Annots;
    }
    assert inputs[..|inputs|] == inputs;
    notes := [];
    for i := 0 to |all|
      invariant notes == SortedNotes(all[..i])
    {
      assert all[..i + 1][..i] == all[..i];
      notes := InsertNote(notes, all[i]);
    }
    assert all[..|all|] == all;
  }

  lemma {:induction false} AllNotesFit(inputs: seq<Input>)
    ensures forall n :: n in AllNotes(inputs) ==> NoteFits(n)
    decreases |inputs|
  {
    hide NoteFits, Notes, SessionRecords;
    if inputs != [] {
      var n := |inputs| - 1;
      AllNotesFit(inputs[..n]);
      SessionIsFramed(FileList(inputs[n].sources));
      ReadNotesFit(InputRecords(inputs[n]));
    }
  }

  lemma SortedNotesFit(inputs: seq<Input>)
    ensures forall i :: 0 <= i < |SortedNotes(AllNotes(inputs))| ==> NoteFits(SortedNotes(AllNotes(inputs))[i])
  {
    hide NoteFits, AllNotes;
    AllNotesFit(inputs);
    NotesAreSorted(AllNotes(inputs));
    forall i | 0 <= i < |SortedNotes(AllNotes(inputs))|
      ensures NoteFits(SortedNotes(AllNotes(inputs))[i])
    {
      assert SortedNotes(AllNotes(inputs))[i] in multiset(SortedNotes(AllNotes(inputs)));
    }
  }

  lemma MapFacts(inputs: seq<Input>, allow: bool)
    ensures var m := MapOf(ChannelLists(inputs), allow);
            DistinctNames(m.channels) && forall l :: 0 <= l < |m.links| ==> m.links[l].merged < |m.channels|
  {
    hide ChannelsOf, DistinctNames;
    var lists := ChannelLists(inputs);
    assert lists[..|lists|] == lists;
    MapIsSound(lists, |lists|, allow);
    var m := MapOf(lists, allow);
    forall l | 0 <= l < |m.links|
      ensures m.links[l].merged < |m.channels|
    {
      assert LinkSound(m.links[l], m.channels, lists);
    }
  }

  /** The definitions alone, and the messages behind them, may be made when all of a merge's calls may. */
  lemma PartsPermitted(c: Config, lib: Library, inputs: seq<Input>, opts: MergeOptions, progress: nat -> bool, clock: nat -> bool)
    requires Permitted(c, MergeCalls(lib, inputs, opts, progress, clock))
    ensures var defines := DefineCalls(MapOf(ChannelLists(inputs), opts.mergeDuplicates).channels);
            Permitted(c, defines + WriteCalls(clock, MergedWrites(lib, inputs, opts, progress)))
    ensures DefsFit(MapOf(ChannelLists(inputs), opts.mergeDuplicates).channels)
  {
    hide MapOf, DefineCalls, WriteCalls, NoteCalls, MergedWrites, Opened, Shaped;
    OpenedIsShaped(c);
    var channels := MapOf(ChannelLists(inputs), opts.mergeDuplicates).channels;
    var writes := WriteCalls(clock, MergedWrites(lib, inputs, opts, progress));
    RunJoins(c, Opened(c), DefineCalls(channels) + writes, NoteCalls(if opts.includeAnnotations then SortedNotes(AllNotes(inputs)) else []));
    RunJoins(c, Opened(c), DefineCalls(channels), writes);
    DefinesSized(c, Opened(c), channels);
  }

  method ChannelListsOf(readers: seq<Reader>, ghost inputs: seq<Input>) returns (lists: seq<seq<ChannelDef>>)
    requires |readers| == |inputs| && forall i :: 0 <= i < |readers| ==> readers[i].Channels == ChannelsOf(inputs[i])
    ensures lists == ChannelLists(inputs)
  {
    hide ChannelsOf;
    lists := [];
    for i := 0 to |readers|
      invariant |lists| == i && forall k :: 0 <= k < i ==> lists[k] == ChannelsOf(inputs[k])
    {
      lists := lists + [readers[i].Channels];
    }
  }

  lemma ReadsFacts(lib: Library, readers: seq<Reader>, inputs: seq<Input>)
    requires |readers| == |inputs| && forall i :: 0 <= i < |readers| ==> Reads(lib, readers[i], inputs[i])
    ensures forall i :: 0 <= i < |readers| ==>
              && readers[i].Valid() && readers[i].Remaining() == Streams(lib, inputs)[i]
              && readers[i].Channels == ChannelsOf(inputs[i]) && readers[i].Annots == NotesOf(inputs[i])
  {
    hide Reader.Valid, Reader.Remaining, ChannelsOf, NotesOf, StreamOf;
    forall i | 0 <= i < |readers|
      ensures readers[i].Valid() && readers[i].Remaining() == Streams(lib, inputs)[i]
      ensures readers[i].Channels == ChannelsOf(inputs[i]) && readers[i].Annots == NotesOf(inputs[i])
    {
      assert Reads(lib, readers[i], inputs[i]);
    }
  }

  /** Fills the opened destination: channels, messages in order, annotations. */
  method FillMerged(w: Writer.RecorderSession, readers: seq<Reader>, m: ChannelMap, opts: MergeOptions,
                    progress: nat -> bool, clock: nat -> bool, ghost lib: Library, ghost inputs: seq<Input>)
      returns (st: Status, totalMessages: nat, ghost made: seq<Call>)
    requires Driven(w, []) && w.L.channels == [] && w.Accepted == []
    requires |readers| == |inputs| && forall i :: 0 <= i < |readers| ==> Reads(lib, readers[i], inputs[i])
    requires forall i, j :: 0 <= i < j < |readers| ==> readers[i] != readers[j]
    requires Permitted(w.Cfg, MergeCalls(lib, inputs, opts, progress, clock)) && m == MapOf(ChannelLists(inputs), opts.mergeDuplicates)
    modifies Footprint(w), set i | 0 <= i < |readers| :: readers[i]
    ensures st == if !Definable(m.channels) then ErrorInvalidArg
                  else if !AllLand(m.links, Picks(progress, 0, Streams(lib, inputs))) then ErrorCorrupted else Ok
    ensures Driven(w, made)
    ensures st == Ok ==>
              && made == MergeCalls(lib, inputs, opts, progress, clock)
              && w.Accepted == MergedWrites(lib, inputs, opts, progress) && totalMessages == |w.Accepted|
    ensures forall o :: o in Footprint(w) ==> o in old(Footprint(w)) || fresh(o)
  {
    hide Driven, Footprint, Opened, AllAllowed, Runs.Accepted, Shaped, Reader.Valid, Reader.Remaining, Picks, Routed, AllLand,
      Permitted, DefsFit, DistinctNames, Definable, Numbered, MapOf, WriteCalls, DefineCalls, NoteCalls, SortedNotes, AllNotes,
      Total, Reads, ChannelsOf, NotesOf, NoteFits;
    MapFacts(inputs, opts.mergeDuplicates);
    PartsPermitted(w.Cfg, lib, inputs, opts, progress, clock);
    Strangers(w, readers);
    totalMessages := 0;
    var dstIds;
    st, dstIds, made := DefineAll(w, m.channels);
    if st != Ok {
      return;
    }
    assert |w.L.channels| == |m.channels| by { ChannelsMatch(w.L, m.channels); }
    ReadsFacts(lib, readers, inputs);
    st, totalMessages := MergeStreams(w, readers, m.links, dstIds, progress, clock, made, Streams(lib, inputs));
    made := made + WriteCalls(clock, MergedWrites(lib, inputs, opts, progress));
    assert [] + MergedWrites(lib, inputs, opts, progress) == MergedWrites(lib, inputs, opts, progress);
    if st != Ok {
      return;
    }
    NoNotes(made);
    if opts.includeAnnotations {
      var notes := CollectNotes(readers, inputs);
      SortedNotesFit(inputs);
      AnnotateAll(w, notes, made);
      made := made + NoteCalls(notes);
    }
  }

  lemma NoNotes(made: seq<Call>)
    ensures made + NoteCalls([]) == made
  {
  }

  lemma ChannelsMatch(L: Log, channels: seq<ChannelDef>)
    requires Numbered(L, channels)
    ensures |L.channels| == |channels|
  {
  }

  /** No manifest lists a channel number twice, and no message carries the greatest timestamp. */
  ghost predicate Ordinary(lib: Library, inputs: seq<Input>) {
    (forall i :: 0 <= i < |inputs| ==> DistinctIds(inputs[i].known)) && Below(Streams(lib, inputs))
  }

  /**
   * When a merge succeeds: the inputs open, no name occurs twice unless duplicates may be merged, the
   * destination takes the channels, and every message taken is on a channel its source lists.
   */
  lemma MergeSucceeds(lib: Library, inputs: seq<Input>, opts: MergeOptions, progress: nat -> bool)
    ensures MergeStatus(lib, inputs, opts, progress) == Ok <==>
            && inputs != [] && OpenAllStatus(inputs) == Ok
            && (opts.mergeDuplicates || DistinctNames(AllDefs(ChannelLists(inputs))))
            && Definable(MapOf(ChannelLists(inputs), opts.mergeDuplicates).channels)
            && forall p :: p in Picks(progress, 0, Streams(lib, inputs)) ==>
                 p.source < |inputs| && HasId(ChannelsOf(inputs[p.source]), p.m.ch)
  {
    hide OpenAllStatus, MapOf, Order, StreamOf, ChannelsOf, DistinctNames, HasId, AllLand, Until;
    var lists, streams := ChannelLists(inputs), Streams(lib, inputs);
    MapIsBuilt(lists, opts.mergeDuplicates);
    OrderIsFromSources(streams);
    PicksAreOrdered(progress, 0, Order(streams));
    if MapOf(lists, opts.mergeDuplicates).ok && |MapOf(lists, opts.mergeDuplicates).channels| <= 0xFFFE {
      AllLandWhenListed(lists, opts.mergeDuplicates, Picks(progress, 0, streams));
    }
  }

  /** Why a merge fails: an input that does not open, names or channels that are refused, or a message on a channel its source does not list. */
  lemma MergeFails(lib: Library, inputs: seq<Input>, opts: MergeOptions, progress: nat -> bool)
    ensures inputs == [] ==> MergeStatus(lib, inputs, opts, progress) == ErrorInvalidArg
    ensures inputs != [] && OpenAllStatus(inputs) != Ok ==> MergeStatus(lib, inputs, opts, progress) == OpenAllStatus(inputs)
    ensures inputs != [] && OpenAllStatus(inputs) == Ok && !opts.mergeDuplicates && !DistinctNames(AllDefs(ChannelLists(inputs))) ==>
              MergeStatus(lib, inputs, opts, progress) == ErrorInvalidArg
    ensures inputs != [] && OpenAllStatus(inputs) == Ok && (exists i, d :: 0 <= i < |inputs| && d in ChannelsOf(inputs[i]) && d.name == []) ==>
              MergeStatus(lib, inputs, opts, progress) == ErrorInvalidArg
    ensures MergeStatus(lib, inputs, opts, progress) == ErrorCorrupted && OpenAllStatus(inputs) == Ok ==>
              exists p :: p in Picks(progress, 0, Streams(lib, inputs)) && !(p.source < |inputs| && HasId(ChannelsOf(inputs[p.source]), p.m.ch))
  {
    hide OpenAllStatus, MapOf, Picks, Streams, ChannelsOf, DistinctNames, HasId, AllLand, AllDefs;
    var lists := ChannelLists(inputs);
    MapIsBuilt(lists, opts.mergeDuplicates);
    MergeSucceeds(lib, inputs, opts, progress);
    if i, d :| 0 <= i < |inputs| && d in ChannelsOf(inputs[i]) && d.name == [] && MapOf(lists, opts.mergeDuplicates).ok {
      var j :| 0 <= j < |lists[i]| && lists[i][j] == d;
      UnnamedIsMapped(lists, opts.mergeDuplicates, Place(i, j));
    }
  }

  lemma UnnamedIsMapped(sources: seq<seq<ChannelDef>>, allow: bool, p: Place)
    requires MapOf(sources, allow).ok && At(sources, p) && DefAt(sources, p).name == []
    ensures !Definable(MapOf(sources, allow).channels)
  {
    hide MapOf, Foremost;
    assert sources[..|sources|] == sources;
    var at := MapCopiesFirsts(sources, |sources|, allow);
    assert Listed(sources, at, []);
    var t :| 0 <= t < |at| && At(sources, at[t]) && DefAt(sources, at[t]).name == [];
  }

  /** An uncancelled merge that succeeds writes an interleaving of its inputs. */
  lemma MergeInterleaves(lib: Library, inputs: seq<Input>, opts: MergeOptions, progress: nat -> bool)
    requires Ordinary(lib, inputs) && MapOf(ChannelLists(inputs), opts.mergeDuplicates).ok && forall n: nat :: progress(n)
    requires AllLand(MapOf(ChannelLists(inputs), opts.mergeDuplicates).links, Picks(progress, 0, Streams(lib, inputs)))
    ensures Interleaved(MapOf(ChannelLists(inputs), opts.mergeDuplicates), ChannelLists(inputs), Streams(lib, inputs),
                        MergedWrites(lib, inputs, opts, progress))
  {
    hide MapOf, Picks, Below, DistinctIds, InputRecords, Known, AllLand, Routed, Interleaved;
    forall i | 0 <= i < |inputs|
      ensures DistinctIds(ChannelLists(inputs)[i])
    {
      KnownIdsDiffer(inputs[i].known, InputRecords(inputs[i]));
    }
    WritesInterleave(ChannelLists(inputs), opts.mergeDuplicates, Streams(lib, inputs), progress);
  }

  /**
   * Merges sessions into one. The channel map, the order of the messages and what the destination
   * is told are those of the specification; on success the files are those of exactly these calls.
   */
  method Merge(env: Config, inputs: seq<Input>, opts: MergeOptions, progress: nat -> bool, clock: nat -> bool)
      returns (st: Status, files: seq<bytes>, infos: seq<SegmentInfo>, totalMessages: nat, channelCount: nat)
    requires Usable(OutputConfig(env, opts.maxSegmentBytes)) && Mergeable(env, inputs, opts, progress, clock)
    ensures st == MergeStatus(env.lib, inputs, opts, progress)
    ensures st == Ok ==>
              var c, calls := OutputConfig(env, opts.maxSegmentBytes), MergeCalls(env.lib, inputs, opts, progress, clock);
              && AllAllowed(c, Opened(c), calls)
              && Runs.Accepted(c, Opened(c), calls) == MergedWrites(env.lib, inputs, opts, progress)
              && files == SessionFiles(c, calls)
              && infos == Writer.Infos(c, Closing(c, Run(c, Opened(c), calls)))
              && totalMessages == |MergedWrites(env.lib, inputs, opts, progress)|
              && channelCount == |MapOf(ChannelLists(inputs), opts.mergeDuplicates).channels|
    ensures st == Ok ==>
              exists at :: Firsts(ChannelLists(inputs), Place(|inputs|, 0), at)
                && Copies(MapOf(ChannelLists(inputs), opts.mergeDuplicates).channels, ChannelLists(inputs), at)
    ensures st == Ok && Ordinary(env.lib, inputs) && (forall n: nat :: progress(n)) ==>
              Interleaved(MapOf(ChannelLists(inputs), opts.mergeDuplicates), ChannelLists(inputs), Streams(env.lib, inputs),
                          MergedWrites(env.lib, inputs, opts, progress))
  {
    hide Opened, AllAllowed, Runs.Accepted, Shaped, Reader.Valid, Writer.RecorderSession.Valid, Permitted, AllLand, Picks, MapOf, MergedWrites, MergeCalls, Closing,
      Run, SessionFiles, Standard, Inverts, Reads, OpenAllStatus, Definable, Firsts, Copies;
    files, infos, totalMessages, channelCount := [], [], 0, 0;
    if |inputs| == 0 {
      return ErrorInvalidArg, files, infos, 0, 0;
    }
    var readers;
    st, readers := OpenAll(env.lib, inputs);
    if st != Ok {
      return;
    }
    ReadersSay(env.lib, readers, inputs);
    var lists := ChannelListsOf(readers, inputs);
    var m := MapChannels(lists, opts.mergeDuplicates);
    if !m.ok {
      st := ErrorInvalidArg;
      return;
    }
    var w := Start(OutputConfig(env, opts.maxSegmentBytes));
    StartIsEmpty(w);
    ghost var made;
    st, totalMessages, made := FillMerged(w, readers, m, opts, progress, clock, env.lib, inputs);
    if st == Ok && Ordinary(env.lib, inputs) && forall n: nat :: progress(n) {
      MergeInterleaves(env.lib, inputs, opts, progress);
    }
    WhatWasDone(w, made);
    files, infos := Finish(w, made);
    channelCount := |m.channels|;
  }

  // ----- inputs that can be merged whatever is buffered when -----

  /** Definitions that fit their records, with chunks of limited size. */
  ghost predicate Bounded(channels: seq<ChannelDef>, chunkSize: nat) {
    DefsFit(channels) && forall i :: 0 <= i < |channels| ==> channels[i].chunkSize <= chunkSize
  }

  lemma WithChannelIsBounded(m: ChannelMap, source: nat, d: ChannelDef, allow: bool, chunkSize: nat)
    requires Bounded(m.channels, chunkSize) && Bounded([d], chunkSize)
    ensures Bounded(WithChannel(m, source, d, allow).channels, chunkSize)
  {
    hide StoredString, Position;
    assert [d][0] == d;
  }

  lemma {:induction false} SourceIsBounded(m: ChannelMap, source: nat, defs: seq<ChannelDef>, allow: bool, chunkSize: nat)
    requires Bounded(m.channels, chunkSize) && Bounded(defs, chunkSize)
    ensures Bounded(WithSource(m, source, defs, allow).channels, chunkSize)
    decreases |defs|
  {
    hide StoredDef, WithChannel;
    if defs != [] {
      var n := |defs| - 1;
      SourceIsBounded(m, source, defs[..n], allow, chunkSize);
      WithChannelIsBounded(WithSource(m, source, defs[..n], allow), source, defs[n], allow, chunkSize);
    }
  }

  lemma {:induction false} MapIsBounded(sources: seq<seq<ChannelDef>>, allow: bool, chunkSize: nat)
    requires forall i :: 0 <= i < |sources| ==> Bounded(sources[i], chunkSize)
    ensures Bounded(MapOf(sources, allow).channels, chunkSize)
    decreases |sources|
  {
    hide Bounded, WithSource;
    if sources == [] {
      NoChannels(chunkSize);
    } else {
      var n := |sources| - 1;
      MapIsBounded(sources[..n], allow, chunkSize);
      SourceIsBounded(MapOf(sources[..n], allow), n, sources[n], allow, chunkSize);
    }
  }

  lemma NoChannels(chunkSize: nat)
    ensures Bounded([], chunkSize)
  {
  }

  ghost predicate AllSmall(calls: seq<Call>, chunkSize: nat) { forall call :: call in calls ==> Small(call, chunkSize) }

  lemma {:induction false} DefinesAreSmall(channels: seq<ChannelDef>, chunkSize: nat)
    requires Bounded(channels, chunkSize)
    ensures AllSmall(DefineCalls(channels), chunkSize)
    decreases |channels|
  {
    hide StoredDef;
    if channels != [] {
      DefinesAreSmall(channels[..|channels| - 1], chunkSize);
    }
  }

  lemma {:induction false} NotesAreSmall(notes: seq<Note>, chunkSize: nat)
    requires forall i :: 0 <= i < |notes| ==> NoteFits(notes[i])
    ensures AllSmall(NoteCalls(notes), chunkSize)
    decreases |notes|
  {
    hide StoredAnnotation;
    if notes != [] {
      NotesAreSmall(notes[..|notes| - 1], chunkSize);
    }
  }

  lemma {:induction false} RoutedFromPicks(links: seq<Link>, picks: seq<Pick>)
    ensures forall m :: m in Routed(links, picks) ==> exists p :: p in picks && p.m.data == m.data
    decreases |picks|
  {
    hide Target;
    if picks != [] && Landed(links, picks[0]).Some? {
      RoutedFromPicks(links, picks[1..]);
      forall m | m in Routed(links, picks)
        ensures exists p :: p in picks && p.m.data == m.data
      {
        if m == Landed(links, picks[0]).value {
          assert picks[0] in picks && picks[0].m.data == m.data;
        } else {
          var p :| p in picks[1..] && p.m.data == m.data;
          assert p in picks;
        }
      }
    }
  }

  lemma WritesAreSmall(lib: Library, inputs: seq<Input>, opts: MergeOptions, progress: nat -> bool, clock: nat -> bool, chunkSize: nat)
    requires forall i, m :: 0 <= i < |inputs| && m in StreamOf(lib, inputs[i]) ==> chunkSize + 12 + |m.data| < CHUNK_LIMIT
    ensures AllSmall(WriteCalls(clock, MergedWrites(lib, inputs, opts, progress)), chunkSize)
  {
    hide StreamOf, MapOf, Routed, Until, Order;
    var streams, links := Streams(lib, inputs), MapOf(ChannelLists(inputs), opts.mergeDuplicates).links;
    OrderIsFromSources(streams);
    PicksAreOrdered(progress, 0, Order(streams));
    RoutedFromPicks(links, Picks(progress, 0, streams));
    forall m | m in MergedWrites(lib, inputs, opts, progress)
      ensures chunkSize + 12 + |m.data| < CHUNK_LIMIT
    {
      var p :| p in Picks(progress, 0, streams) && p.m.data == m.data;
      assert p.m in StreamOf(lib, inputs[p.source]);
    }
  }

  /** Inputs whose largest chunk and payload together fit a record can always be merged. */
  lemma SmallInputsMerge(env: Config, inputs: seq<Input>, opts: MergeOptions, progress: nat -> bool, clock: nat -> bool, chunkSize: nat)
    requires Usable(OutputConfig(env, opts.maxSegmentBytes))
    requires forall i :: 0 <= i < |inputs| ==> Bounded(ChannelsOf(inputs[i]), chunkSize)
    requires forall i, m :: 0 <= i < |inputs| && m in StreamOf(env.lib, inputs[i]) ==> chunkSize + 12 + |m.data| < CHUNK_LIMIT
    ensures Mergeable(env, inputs, opts, progress, clock)
  {
    hide Usable, MapOf, ChannelsOf, StreamOf, DefineCalls, WriteCalls, NoteCalls, MergedWrites, Bounded, Small, NoteFits, Opened, Invariant, Shaped;
    var c := OutputConfig(env, opts.maxSegmentBytes);
    MapIsBounded(ChannelLists(inputs), opts.mergeDuplicates, chunkSize);
    DefinesAreSmall(MapOf(ChannelLists(inputs), opts.mergeDuplicates).channels, chunkSize);
    WritesAreSmall(env.lib, inputs, opts, progress, clock, chunkSize);
    SortedNotesFit(inputs);
    NotesAreSmall(if opts.includeAnnotations then SortedNotes(AllNotes(inputs)) else [], chunkSize);
    SmallStart(c, chunkSize);
    SmallRunIsAllowed(c, Opened(c), MergeCalls(env.lib, inputs, opts, progress, clock), chunkSize);
  }

  lemma SmallStart(c: Config, chunkSize: nat)
    requires Usable(c)
    ensures |c.sessionId| == 16 && Shaped(c, Opened(c)) && Invariant(c, Opened(c)) && Opened(c).channels == []
  {
    OpenedIsSettled(c);
  }

  lemma ReadersSay(lib: Library, readers: seq<Reader>, inputs: seq<Input>)
    requires |readers| == |inputs| && forall i :: 0 <= i < |readers| ==> Reads(lib, readers[i], inputs[i])
    ensures forall i :: 0 <= i < |readers| ==> readers[i].Channels == ChannelsOf(inputs[i])
  {
    ReadsFacts(lib, readers, inputs);
  }

  lemma StartIsEmpty(w: Writer.RecorderSession)
    requires Driven(w, [])
    ensures w.L.channels == [] && w.Accepted == []
  {
  }

  lemma WhatWasDone(w: Writer.RecorderSession, made: seq<Call>)
    requires Driven(w, made)
    ensures Shaped(w.Cfg, Opened(w.Cfg)) && AllAllowed(w.Cfg, Opened(w.Cfg), made)
    ensures Runs.Accepted(w.Cfg, Opened(w.Cfg), made) == w.Accepted
  {
  }
}
