/** What a merge delivers: where its picks land, when all of them do, and that each message arrives once, in order, under its name. */
module Deliveries {
  import opened Bytes
  import opened Outcomes
  import opened Stream
  import opened Recording
  import opened Lookup
  import opened Opening
  import opened Interleaving
  import opened ChannelMaps
  import Format
  import Seqs

  // ----- the picks and where they land -----

  /** Where a pick is written. */
  function Landed(links: seq<Link>, p: Pick): Option<Msg> {
    match Target(links, p.source, p.m.ch)
    case Some(t) => if t < 0x1_0000 then Some(Msg(t, p.m.ts, p.m.data)) else None
    case None => None
  }

  /** The writes up to the first pick that has no destination. */
  function Routed(links: seq<Link>, picks: seq<Pick>): (ms: seq<Msg>)
    ensures |ms| <= |picks|
  {
    if picks == [] || Landed(links, picks[0]).None? then [] else [Landed(links, picks[0]).value] + Routed(links, picks[1..])
  }

  predicate AllLand(links: seq<Link>, picks: seq<Pick>) { forall p :: p in picks ==> Landed(links, p).Some? }

  /** The picks up to and including the first after which the progress callback, told the bytes so far, cancels. */
  function Until(progress: nat -> bool, done: nat, picks: seq<Pick>): seq<Pick>
    decreases |picks|
  {
    if picks == [] then []
    else if !progress(done + |picks[0].m.data|) then [picks[0]]
    else [picks[0]] + Until(progress, done + |picks[0].m.data|, picks[1..])
  }

  /** The progress callback that lets everything pass. */
  predicate Uncancelled(bytesProcessed: nat) { true }

  lemma {:induction false} NeverCancelled(progress: nat -> bool, done: nat, picks: seq<Pick>)
    requires forall n :: progress(n)
    ensures Until(progress, done, picks) == picks
    decreases |picks|
  {
    if picks != [] {
      NeverCancelled(progress, done + |picks[0].m.data|, picks[1..]);
      assert picks == [picks[0]] + picks[1..];
    }
  }

  /** The bytes of message data picked. */
  ghost function PickSize(picks: seq<Pick>): nat { if picks == [] then 0 else |picks[0].m.data| + PickSize(picks[1..]) }

  /** How many picks are taken: all, or up to the first number of bytes that the callback refuses. */
  ghost predicate Stopped(progress: nat -> bool, done: nat, picks: seq<Pick>, n: nat) {
    && n <= |picks| && (forall k :: 0 < k < n ==> progress(done + PickSize(picks[..k])))
    && (n < |picks| ==> n > 0 && !progress(done + PickSize(picks[..n])))
  }

  lemma PickSizeOfFirst(picks: seq<Pick>)
    requires picks != []
    ensures forall k :: 0 < k <= |picks| ==> PickSize(picks[..k]) == |picks[0].m.data| + PickSize(picks[1..][..k - 1])
    ensures PickSize([]) == 0
  {
    forall k | 0 < k <= |picks|
      ensures PickSize(picks[..k]) == |picks[0].m.data| + PickSize(picks[1..][..k - 1])
    {
      assert picks[..k][1..] == picks[1..][..k - 1];
    }
  }

  lemma StoppedOn(progress: nat -> bool, done: nat, picks: seq<Pick>, n: nat)
    requires picks != [] && n > 0 && progress(done + |picks[0].m.data|)
    requires Stopped(progress, done + |picks[0].m.data|, picks[1..], n - 1)
    ensures Stopped(progress, done, picks, n)
  {
    PickSizeOfFirst(picks);
    hide PickSize;
    assert picks[1..][..0] == [];
  }

  lemma StoppedAtOnce(progress: nat -> bool, done: nat, picks: seq<Pick>)
    requires picks != [] && !progress(done + |picks[0].m.data|)
    ensures Stopped(progress, done, picks, 1)
  {
    assert picks[..1][1..] == [];
  }

  /** Cancelling leaves a prefix of the order, and says where it ends. */
  lemma {:induction false} UntilIsPrefix(progress: nat -> bool, done: nat, picks: seq<Pick>)
    ensures var n := |Until(progress, done, picks)|;
            n <= |picks| && Until(progress, done, picks) == picks[..n] && Stopped(progress, done, picks, n)
    decreases |picks|
  {
    if picks == [] {
    } else {
      hide PickSize, Stopped;
      var rest, more := picks[1..], done + |picks[0].m.data|;
      UntilIsPrefix(progress, more, rest);
      var n := |Until(progress, done, picks)|;
      PickSizeOfFirst(picks);
      if !progress(more) {
        assert picks[..1] == [picks[0]];
        StoppedAtOnce(progress, done, picks);
      } else {
        assert picks[..n] == [picks[0]] + rest[..n - 1];
        StoppedOn(progress, done, picks, n);
      }
    }
  }

  /** The picks the loop takes, from a state where some bytes have been written. */
  function Picks(progress: nat -> bool, done: nat, streams: seq<seq<Msg>>): seq<Pick> {
    Until(progress, done, Order(streams))
  }

  lemma {:induction false} PicksAreOrdered(progress: nat -> bool, done: nat, picks: seq<Pick>)
    ensures forall p :: p in Until(progress, done, picks) ==> p in picks
    decreases |picks|
  {
    if picks != [] {
      PicksAreOrdered(progress, done + |picks[0].m.data|, picks[1..]);
    }
  }

  // ----- when the channel map is built -----

  /** The channel definitions of all sources, one after another. */
  function AllDefs(sources: seq<seq<ChannelDef>>): seq<ChannelDef> {
    if sources == [] then [] else AllDefs(sources[..|sources| - 1]) + sources[|sources| - 1]
  }

  lemma {:induction false} AllDefsJoin(a: seq<seq<ChannelDef>>, b: seq<seq<ChannelDef>>)
    ensures AllDefs(a + b) == AllDefs(a) + AllDefs(b)
    decreases |b|
  {
    if b == [] {
      assert a + b == a;
    } else {
      var n := |b| - 1;
      assert (a + b)[..|a + b| - 1] == a + b[..n];
      AllDefsJoin(a, b[..n]);
      Seqs.Regroup(AllDefs(a), AllDefs(b[..n]), b[n]);
    }
  }

  /** Definition j of source i stands behind all definitions of the sources before. */
  lemma AllDefsAt(sources: seq<seq<ChannelDef>>, i: nat, j: nat)
    requires i < |sources| && j < |sources[i]|
    ensures var k := |AllDefs(sources[..i])| + j; k < |AllDefs(sources)| && AllDefs(sources)[k] == sources[i][j]
  {
    var front, back := sources[..i + 1], sources[i + 1..];
    assert sources == front + back && front[..i] == sources[..i];
    AllDefsJoin(front, back);
  }

  ghost predicate SameNames(a: seq<ChannelDef>, b: seq<ChannelDef>) {
    |a| == |b| && forall i :: 0 <= i < |a| ==> a[i].name == b[i].name
  }

  /** Without duplicates the map lists exactly the definitions seen so far, as long as their names are distinct. */
  ghost predicate Collects(m: ChannelMap, done: seq<ChannelDef>, allow: bool) {
    if allow then m.ok
    else (m.ok <==> DistinctNames(done)) && (m.ok ==> SameNames(m.channels, done))
  }

  lemma CollectsOne(m: ChannelMap, source: nat, done: seq<ChannelDef>, d: ChannelDef, allow: bool)
    requires Collects(m, done, allow)
    ensures Collects(WithChannel(m, source, d, allow), done + [d], allow)
  {
    var all := done + [d];
    if !allow && DistinctNames(all) {
      assert DistinctNames(done) by {
        assert forall i :: 0 <= i < |done| ==> all[i] == done[i];
      }
      assert forall i :: 0 <= i < |done| ==> all[i] == done[i] && all[i].name != all[|done|].name;
    } else if !allow && m.ok {
      var at := Position(m.channels, d.name);
      assert forall i :: 0 <= i < |done| ==> all[i] == done[i];
    }
  }

  lemma {:induction false} CollectsSource(m: ChannelMap, source: nat, done: seq<ChannelDef>, defs: seq<ChannelDef>, allow: bool)
    requires Collects(m, done, allow)
    ensures Collects(WithSource(m, source, defs, allow), done + defs, allow)
    decreases |defs|
  {
    hide Collects, WithChannel;
    if defs == [] {
      assert done + [] == done;
    } else {
      var n := |defs| - 1;
      CollectsSource(m, source, done, defs[..n], allow);
      CollectsOne(WithSource(m, source, defs[..n], allow), source, done + defs[..n], defs[n], allow);
      assert done + defs == (done + defs[..n]) + [defs[n]];
    }
  }

  lemma {:induction false} CollectsAll(sources: seq<seq<ChannelDef>>, allow: bool)
    ensures Collects(MapOf(sources, allow), AllDefs(sources), allow)
    decreases |sources|
  {
    hide WithSource;
    if sources != [] {
      var n := |sources| - 1;
      CollectsAll(sources[..n], allow);
      CollectsSource(MapOf(sources[..n], allow), n, AllDefs(sources[..n]), sources[n], allow);
    }
  }

  /** The map is refused exactly when a name occurs twice and duplicates may not be merged. */
  lemma MapIsBuilt(sources: seq<seq<ChannelDef>>, allow: bool)
    ensures MapOf(sources, allow).ok <==> allow || DistinctNames(AllDefs(sources))
  {
    CollectsAll(sources, allow);
  }

  // ----- when every pick has a destination -----

  /** Exactly the channels a source lists have a destination. */
  lemma ListedHaveTargets(sources: seq<seq<ChannelDef>>, allow: bool, i: nat, ch: u16)
    requires MapOf(sources, allow).ok && i < |sources|
    ensures var t := Target(MapOf(sources, allow).links, i, ch);
            && (t.Some? <==> HasId(sources[i], ch))
            && (t.Some? ==> t.value < |MapOf(sources, allow).channels|)
  {
    hide MapOf, DistinctNames;
    assert sources[..|sources|] == sources;
    MapIsSound(sources, |sources|, allow);
    var m := MapOf(sources, allow);
    TargetIsLink(m.links, i, ch);
    if Target(m.links, i, ch).Some? {
      var l := Link(i, ch, Target(m.links, i, ch).value);
      var k :| 0 <= k < |m.links| && m.links[k] == l;
      assert LinkSound(m.links[k], m.channels, sources);
    }
  }

  /** Every pick lands exactly when every message picked is on a channel its source lists. */
  lemma AllLandWhenListed(sources: seq<seq<ChannelDef>>, allow: bool, picks: seq<Pick>)
    requires MapOf(sources, allow).ok && |MapOf(sources, allow).channels| <= 0x1_0000
    requires forall p :: p in picks ==> p.source < |sources|
    ensures AllLand(MapOf(sources, allow).links, picks) <==> forall p :: p in picks ==> HasId(sources[p.source], p.m.ch)
  {
    hide MapOf, Target, HasId;
    forall p | p in picks
      ensures Landed(MapOf(sources, allow).links, p).Some? <==> HasId(sources[p.source], p.m.ch)
    {
      ListedHaveTargets(sources, allow, p.source, p.m.ch);
    }
  }

  // ----- what is written -----

  lemma {:induction false} RoutedAt(links: seq<Link>, picks: seq<Pick>)
    requires AllLand(links, picks)
    ensures |Routed(links, picks)| == |picks|
    ensures forall k :: 0 <= k < |picks| ==> Landed(links, picks[k]) == Some(Routed(links, picks)[k])
    decreases |picks|
  {
    hide Landed;
    if picks != [] {
      assert picks[0] in picks;
      RoutedAt(links, picks[1..]);
    }
  }

  /** No message carries the greatest timestamp, which the selection never takes. */
  ghost predicate Below(streams: seq<seq<Msg>>) {
    forall i, k :: 0 <= i < |streams| && 0 <= k < |streams[i]| ==> streams[i][k].ts < U64_MAX
  }

  lemma {:induction false} NothingLeftToTake(streams: seq<seq<Msg>>)
    requires forall i :: 0 <= i < |streams| ==> streams[i] == []
    ensures Total(streams) == 0
    decreases |streams|
  {
    if streams != [] {
      NothingLeftToTake(streams[..|streams| - 1]);
    }
  }

  /** Below the sentinel as many messages are picked as there are. */
  lemma {:induction false} OrderTakesAll(streams: seq<seq<Msg>>)
    requires Below(streams)
    ensures |Order(streams)| == Total(streams)
    decreases Total(streams)
  {
    BestIsLeast(streams);
    match Best(streams)
    case None =>
      NothingLeftToTake(streams);
    case Some(b) =>
      TotalUpdate(streams, b, streams[b][1..]);
      OrderTakesAll(Without(streams, b));
  }

  ghost predicate DistinctIds(defs: seq<ChannelDef>) { forall a, b :: 0 <= a < b < |defs| ==> defs[a].id != defs[b].id }

  /** The write has the pick's timestamp and payload, on the merged channel that has the name of the pick's channel in its source. */
  ghost predicate Delivered(m: ChannelMap, sources: seq<seq<ChannelDef>>, p: Pick, w: Msg) {
    && w.ts == p.m.ts && w.data == p.m.data && w.ch < |m.channels| && p.source < |sources|
    && HasId(sources[p.source], p.m.ch)
    && forall j :: 0 <= j < |sources[p.source]| && sources[p.source][j].id == p.m.ch ==>
         m.channels[w.ch].name == sources[p.source][j].name
  }

  lemma LandsUnderItsName(sources: seq<seq<ChannelDef>>, allow: bool, p: Pick)
    requires MapOf(sources, allow).ok && p.source < |sources| && DistinctIds(sources[p.source])
    requires Landed(MapOf(sources, allow).links, p).Some?
    ensures Delivered(MapOf(sources, allow), sources, p, Landed(MapOf(sources, allow).links, p).value)
  {
    hide MapOf, Target, DistinctNames;
    var defs := sources[p.source];
    ListedHaveTargets(sources, allow, p.source, p.m.ch);
    forall j | 0 <= j < |defs| && defs[j].id == p.m.ch
      ensures MapOf(sources, allow).channels[Landed(MapOf(sources, allow).links, p).value.ch].name == defs[j].name
    {
      TargetHasName(sources, allow, p.source, j);
    }
  }

  /**
   * The writes are an interleaving of the streams: as many as there are messages, every stream in
   * full and in its order, every message under the name of its channel; and in time order, ties by
   * source, when every stream is in time order.
   */
  ghost predicate Interleaved(m: ChannelMap, sources: seq<seq<ChannelDef>>, streams: seq<seq<Msg>>, writes: seq<Msg>) {
    var picks := Order(streams);
    && |writes| == |picks| == Total(streams)
    && (forall i :: 0 <= i < |streams| ==> Of(picks, i) == streams[i])
    && (forall k :: 0 <= k < |writes| ==> Delivered(m, sources, picks[k], writes[k]))
    && ((forall i :: 0 <= i < |streams| ==> RisingMsgs(streams[i])) ==> Ordered(picks) && RisingMsgs(writes))
  }

  /** What a merge that nothing stops writes is an interleaving of its sources. */
  lemma WritesInterleave(sources: seq<seq<ChannelDef>>, allow: bool, streams: seq<seq<Msg>>, progress: nat -> bool)
    requires MapOf(sources, allow).ok && |sources| == |streams| && Below(streams)
    requires (forall i :: 0 <= i < |sources| ==> DistinctIds(sources[i])) && forall n: nat :: progress(n)
    requires AllLand(MapOf(sources, allow).links, Picks(progress, 0, streams))
    ensures Interleaved(MapOf(sources, allow), sources, streams, Routed(MapOf(sources, allow).links, Picks(progress, 0, streams)))
  {
    hide MapOf, Order, Of, Routed, Delivered, DistinctIds, RisingMsgs;
    var m, picks := MapOf(sources, allow), Order(streams);
    NeverCancelled(progress, 0, picks);
    RoutedAt(m.links, picks);
    OrderTakesAll(streams);
    OrderIsFromSources(streams);
    forall i | 0 <= i < |streams|
      ensures Of(picks, i) == streams[i]
    {
      OrderKeepsSources(streams, i);
      AllTakeable(streams[i]);
    }
    var writes := Routed(m.links, picks);
    forall k | 0 <= k < |writes|
      ensures Delivered(m, sources, picks[k], writes[k])
    {
      assert picks[k] in picks;
      LandsUnderItsName(sources, allow, picks[k]);
    }
    if forall i :: 0 <= i < |streams| ==> RisingMsgs(streams[i]) {
      OrderIsOrdered(streams);
      DeliveredRise(m, sources, picks, writes);
    }
  }

  lemma DeliveredRise(m: ChannelMap, sources: seq<seq<ChannelDef>>, picks: seq<Pick>, writes: seq<Msg>)
    requires Ordered(picks) && |writes| == |picks| && forall k :: 0 <= k < |writes| ==> Delivered(m, sources, picks[k], writes[k])
    ensures RisingMsgs(writes)
  {
    forall i, j | 0 <= i < j < |writes|
      ensures writes[i].ts <= writes[j].ts
    {
      assert NotAfter(picks[i], picks[j]);
    }
  }

  // ----- opened sources number their channels apart -----

  /** Opening a session admits no number twice. */
  lemma {:induction false} KnownIdsDiffer(known: seq<ChannelDef>, rs: seq<Format.Rec>)
    requires DistinctIds(known)
    ensures DistinctIds(Known(known, rs))
    decreases |rs|
  {
    hide ParsedDef;
    if rs != [] {
      KnownIdsDiffer(known, rs[..|rs| - 1]);
    }
  }
}
