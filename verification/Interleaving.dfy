/** Merging streams head by head: what the order of the merged stream is, and why it is the only such order. */
module Interleaving {
  import opened Bytes
  import opened Outcomes
  import opened Stream

  /** A message and the stream it came from. */
  datatype Pick = Pick(source: nat, m: Msg)

  /** The selection starts from the greatest timestamp, so a head that carries it is never seen. */
  predicate Waiting(s: seq<Msg>) { s != [] && s[0].ts < U64_MAX }

  /** The stream whose head is taken next: the least timestamp, the lowest index among equals. */
  function Best(streams: seq<seq<Msg>>): (b: Option<nat>)
    ensures b.Some? ==> b.value < |streams| && Waiting(streams[b.value])
  {
    if streams == [] then None
    else
      var n := |streams| - 1;
      var b := Best(streams[..n]);
      if Waiting(streams[n]) && (b.None? || streams[n][0].ts < streams[b.value][0].ts) then Some(n) else b
  }

  function Without(streams: seq<seq<Msg>>, i: nat): (rest: seq<seq<Msg>>)
    requires i < |streams| && streams[i] != []
    ensures Total(rest) < Total(streams)
  {
    TotalUpdate(streams, i, streams[i][1..]);
    streams[i := streams[i][1..]]
  }

  /** The merged stream. */
  function Order(streams: seq<seq<Msg>>): seq<Pick>
    decreases Total(streams)
  {
    match Best(streams)
    case None => []
    case Some(b) => [Pick(b, streams[b][0])] + Order(Without(streams, b))
  }

  // ----- every source comes through complete and in order -----

  function Of(picks: seq<Pick>, i: nat): seq<Msg> {
    if picks == [] then [] else (if picks[0].source == i then [picks[0].m] else []) + Of(picks[1..], i)
  }

  /** What the selection can take of a stream: everything in front of the first greatest timestamp. */
  function Takeable(s: seq<Msg>): seq<Msg> {
    if Waiting(s) then [s[0]] + Takeable(s[1..]) else []
  }

  lemma {:induction false} BestIsLeast(streams: seq<seq<Msg>>)
    ensures Best(streams).None? <==> forall i :: 0 <= i < |streams| ==> !Waiting(streams[i])
    ensures Best(streams).Some? ==>
              var b := Best(streams).value;
              && (forall i :: 0 <= i < |streams| && Waiting(streams[i]) ==> streams[b][0].ts <= streams[i][0].ts)
              && (forall i :: 0 <= i < b && Waiting(streams[i]) ==> streams[b][0].ts < streams[i][0].ts)
    decreases |streams|
  {
    if streams != [] {
      var n := |streams| - 1;
      var front := streams[..n];
      BestIsLeast(front);
      assert forall i :: 0 <= i < n ==> front[i] == streams[i];
      if Best(front).Some? {
        assert front[Best(front).value] == streams[Best(front).value];
      }
      if Waiting(streams[n]) {
        assert forall i :: 0 <= i < |streams| && Waiting(streams[i]) ==> i == n || Waiting(front[i]);
      }
    }
  }

  /** Each source's messages appear once, complete up to the sentinel, in the order of the source. */
  lemma {:induction false} OrderKeepsSources(streams: seq<seq<Msg>>, i: nat)
    requires i < |streams|
    ensures Of(Order(streams), i) == Takeable(streams[i])
    decreases Total(streams)
  {
    BestIsLeast(streams);
    match Best(streams)
    case None =>
    case Some(b) =>
      OrderKeepsSources(Without(streams, b), i);
      assert Order(streams)[1..] == Order(Without(streams, b));
  }

  lemma {:induction false} AllTakeable(s: seq<Msg>)
    requires forall m :: m in s ==> m.ts < U64_MAX
    ensures Takeable(s) == s
  {
    if s != [] {
      AllTakeable(s[1..]);
      assert s == [s[0]] + s[1..];
    }
  }

  lemma {:induction false} OrderIsFromSources(streams: seq<seq<Msg>>)
    ensures forall p :: p in Order(streams) ==> p.source < |streams| && p.m in streams[p.source] && p.m.ts < U64_MAX
    decreases Total(streams)
  {
    match Best(streams)
    case None =>
    case Some(b) =>
      OrderIsFromSources(Without(streams, b));
      assert Order(streams)[1..] == Order(Without(streams, b));
  }

  // ----- the order across sources -----

  /** In time order, and among equal timestamps by source. */
  predicate NotAfter(p: Pick, q: Pick) { p.m.ts < q.m.ts || (p.m.ts == q.m.ts && p.source <= q.source) }

  ghost predicate Ordered(picks: seq<Pick>) {
    forall i, j :: 0 <= i < j < |picks| ==> NotAfter(picks[i], picks[j])
  }

  /** When every source is in time order, so is the merged stream, and ties go to the lower source. */
  lemma {:induction false} OrderIsOrdered(streams: seq<seq<Msg>>)
    requires forall i :: 0 <= i < |streams| ==> RisingMsgs(streams[i])
    ensures Ordered(Order(streams))
    decreases Total(streams)
  {
    BestIsLeast(streams);
    match Best(streams)
    case None =>
    case Some(b) =>
      var rest := Without(streams, b);
      var first := Pick(b, streams[b][0]);
      forall i | 0 <= i < |rest|
        ensures RisingMsgs(rest[i])
      {
        if i == b {
          assert forall k :: 0 <= k < |rest[b]| ==> rest[b][k] == streams[b][k + 1];
        }
      }
      OrderIsOrdered(rest);
      OrderIsFromSources(rest);
      forall q | q in Order(rest)
        ensures NotAfter(first, q)
      {
        FirstIsFirst(streams, b, q);
      }
      assert Order(streams) == [first] + Order(rest);
  }

  lemma FirstIsFirst(streams: seq<seq<Msg>>, b: nat, q: Pick)
    requires forall i :: 0 <= i < |streams| ==> RisingMsgs(streams[i])
    requires Best(streams) == Some(b) && q.source < |streams| && q.m in Without(streams, b)[q.source] && q.m.ts < U64_MAX
    ensures NotAfter(Pick(b, streams[b][0]), q)
  {
    BestIsLeast(streams);
    var s := streams[q.source];
    if q.source == b {
      var k :| 0 <= k < |s[1..]| && s[1..][k] == q.m;
      assert s[k + 1] == q.m;
    } else {
      var k :| 0 <= k < |s| && s[k] == q.m;
      assert s[0].ts <= s[k].ts;
      assert Waiting(s);
    }
  }

  // ----- the only order with these properties -----

  /** In time order, and among equal timestamps by channel number. */
  predicate SortsBefore(a: Msg, b: Msg) { a.ts < b.ts || (a.ts == b.ts && a.ch <= b.ch) }

  ghost predicate InOrder(ms: seq<Msg>) { forall i, j :: 0 <= i < j < |ms| ==> SortsBefore(ms[i], ms[j]) }

  ghost predicate SameChannelwise(a: seq<Msg>, b: seq<Msg>) { forall k: u16 :: Only(a, k) == Only(b, k) }

  /** out is the stable sort of the source by timestamp and channel: sorted, and each channel's messages in their old order. */
  ghost predicate StableSort(out: seq<Msg>, source: seq<Msg>) { InOrder(out) && SameChannelwise(out, source) }

  lemma {:induction false} OnlyMembers(ms: seq<Msg>, k: u16)
    ensures forall m :: m in Only(ms, k) <==> m in ms && m.ch == k
  {
    if ms != [] {
      OnlyMembers(ms[1..], k);
      assert ms == [ms[0]] + ms[1..];
    }
  }

  lemma HeadOfOnly(ms: seq<Msg>)
    requires ms != []
    ensures Only(ms, ms[0].ch) == [ms[0]] + Only(ms[1..], ms[0].ch)
    ensures forall k: u16 :: k != ms[0].ch ==> Only(ms, k) == Only(ms[1..], k)
  {
    forall k: u16 | k != ms[0].ch
      ensures Only(ms, k) == Only(ms[1..], k)
    {
      assert [] + Only(ms[1..], k) == Only(ms[1..], k);
    }
  }

  lemma HeadIsLeast(a: seq<Msg>, b: seq<Msg>)
    requires InOrder(a) && InOrder(b) && SameChannelwise(a, b) && a != [] && b != []
    ensures SortsBefore(b[0], a[0])
  {
    OnlyMembers(a, a[0].ch);
    OnlyMembers(b, a[0].ch);
    var k :| 0 <= k < |b| && b[k] == a[0];
    assert k > 0 ==> SortsBefore(b[0], b[k]);
  }

  /** Sorted streams with the same messages on every channel, in the same order, are equal. */
  lemma {:induction false} SortIsUnique(a: seq<Msg>, b: seq<Msg>)
    requires InOrder(a) && InOrder(b) && SameChannelwise(a, b)
    ensures a == b
    decreases |a|
  {
    if a == [] {
      if b != [] {
        assert Only(a, b[0].ch) == [];
        HeadOfOnly(b);
      }
    } else if b == [] {
      assert Only(b, a[0].ch) == [];
      HeadOfOnly(a);
    } else {
      HeadIsLeast(a, b);
      HeadIsLeast(b, a);
      HeadOfOnly(a);
      HeadOfOnly(b);
      assert Only(a, a[0].ch)[0] == Only(b, a[0].ch)[0];
      forall k: u16
        ensures Only(a[1..], k) == Only(b[1..], k)
      {
        if k == a[0].ch {
          assert Only(a, k)[1..] == Only(b, k)[1..];
        }
      }
      SortIsUnique(a[1..], b[1..]);
    }
  }

  ghost predicate Increasing(ms: seq<Msg>) { forall i, j :: 0 <= i < j < |ms| ==> ms[i].ts < ms[j].ts }

  /** A stream with strictly increasing timestamps is its own only stable sort. */
  lemma StrictIsSorted(out: seq<Msg>, source: seq<Msg>)
    requires StableSort(out, source) && Increasing(source)
    ensures out == source
  {
    SortIsUnique(out, source);
  }

  // ----- one channel per source -----

  /** The picks with channels renamed to source numbers. */
  function Renamed(picks: seq<Pick>): (ms: seq<Msg>)
    requires forall p :: p in picks ==> p.source < 0x1_0000
    ensures |ms| == |picks|
    ensures forall i :: 0 <= i < |picks| ==> ms[i] == Msg(picks[i].source, picks[i].m.ts, picks[i].m.data)
  {
    if picks == [] then [] else [Msg(picks[0].source, picks[0].m.ts, picks[0].m.data)] + Renamed(picks[1..])
  }

  /** The messages of one channel, put on channel 0. */
  function Alone(ms: seq<Msg>): (r: seq<Msg>)
    ensures |r| == |ms|
    ensures forall i :: 0 <= i < |ms| ==> r[i] == Msg(0, ms[i].ts, ms[i].data)
  {
    if ms == [] then [] else [Msg(0, ms[0].ts, ms[0].data)] + Alone(ms[1..])
  }

  function BackOn(ms: seq<Msg>, ch: u16): seq<Msg> {
    if ms == [] then [] else [Msg(ch, ms[0].ts, ms[0].data)] + BackOn(ms[1..], ch)
  }

  lemma {:induction false} BackOfAlone(ms: seq<Msg>, ch: u16)
    requires forall m :: m in ms ==> m.ch == ch
    ensures BackOn(Alone(ms), ch) == ms
  {
    if ms != [] {
      BackOfAlone(ms[1..], ch);
      assert ms == [ms[0]] + ms[1..];
    }
  }

  lemma {:induction false} RenamedOn(picks: seq<Pick>, ch: u16)
    requires forall p :: p in picks ==> p.source < 0x1_0000
    ensures Only(Renamed(picks), ch) == BackOn(Of(picks, ch), ch)
  {
    if picks != [] {
      RenamedOn(picks[1..], ch);
      var rest := Of(picks[1..], ch);
      assert Renamed(picks)[1..] == Renamed(picks[1..]);
      assert [] + rest == rest && [] + BackOn(rest, ch) == BackOn(rest, ch);
      if picks[0].source == ch {
        assert ([picks[0].m] + rest)[1..] == rest;
      }
    }
  }

  /** Streams are the channels of one source, each alone in its own stream. */
  ghost predicate SplitUp(source: seq<Msg>, streams: seq<seq<Msg>>) {
    && |streams| <= 0x1_0000
    && (forall m :: m in source ==> m.ch < |streams|)
    && forall k: u16 :: k < |streams| ==> streams[k] == Alone(Only(source, k))
  }

  lemma {:induction false} OnlyAscends(ms: seq<Msg>, k: u16)
    requires RisingMsgs(ms)
    ensures RisingMsgs(Only(ms, k))
  {
    if ms != [] {
      OnlyAscends(ms[1..], k);
      OnlyMembers(ms[1..], k);
    }
  }

  /**
   * Splitting by channel and merging again: for a source in time order, below the sentinel, the
   * merged stream is the stable sort of the source by timestamp and channel.
   */
  lemma SplitThenMergeSorts(source: seq<Msg>, streams: seq<seq<Msg>>)
    requires SplitUp(source, streams) && RisingMsgs(source) && forall m :: m in source ==> m.ts < U64_MAX
    ensures forall p :: p in Order(streams) ==> p.source < 0x1_0000
    ensures StableSort(Renamed(Order(streams)), source)
  {
    var picks := Order(streams);
    OrderIsFromSources(streams);
    forall i | 0 <= i < |streams|
      ensures RisingMsgs(streams[i])
    {
      OnlyAscends(source, i);
    }
    OrderIsOrdered(streams);
    var out := Renamed(picks);
    forall i, j | 0 <= i < j < |out|
      ensures SortsBefore(out[i], out[j])
    {
      assert NotAfter(picks[i], picks[j]);
    }
    forall k: u16
      ensures Only(out, k) == Only(source, k)
    {
      RenamedOn(picks, k);
      OnlyMembers(source, k);
      if k < |streams| {
        OrderKeepsSources(streams, k);
        AloneIsBelow(source, k);
        AllTakeable(streams[k]);
        BackOfAlone(Only(source, k), k);
      } else {
        NoneFrom(picks, k);
        NothingOn(source, k);
      }
    }
  }

  lemma AloneIsBelow(source: seq<Msg>, k: u16)
    requires forall m :: m in source ==> m.ts < U64_MAX
    ensures forall m :: m in Alone(Only(source, k)) ==> m.ts < U64_MAX
  {
    OnlyMembers(source, k);
    forall m | m in Alone(Only(source, k))
      ensures m.ts < U64_MAX
    {
      var i :| 0 <= i < |Alone(Only(source, k))| && Alone(Only(source, k))[i] == m;
      assert Only(source, k)[i] in source;
    }
  }

  lemma {:induction false} NoneFrom(picks: seq<Pick>, k: nat)
    requires forall p :: p in picks ==> p.source != k
    ensures Of(picks, k) == []
  {
    if picks != [] {
      NoneFrom(picks[1..], k);
    }
  }

  /** Splitting and merging gives the source stream back when its timestamps strictly increase. */
  lemma SplitThenMergeRestores(source: seq<Msg>, streams: seq<seq<Msg>>)
    requires SplitUp(source, streams) && Increasing(source) && forall m :: m in source ==> m.ts < U64_MAX
    ensures forall p :: p in Order(streams) ==> p.source < 0x1_0000
    ensures Renamed(Order(streams)) == source
  {
    SplitThenMergeSorts(source, streams);
    StrictIsSorted(Renamed(Order(streams)), source);
  }
}
