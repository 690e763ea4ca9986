/** Splitting a session by channel and merging the parts gives the session back, sorted. */
module Reassembly {
  import opened Bytes
  import opened Outcomes
  import opened Routines
  import opened Stream
  import opened Recording
  import opened Lookup
  import opened Runs
  import opened RoundTrip
  import opened Opening
  import opened Chronicle
  import opened Reopening
  import opened Interleaving
  import opened Inputs
  import opened ChannelMaps
  import opened Deliveries
  import opened Merging
  import opened Splitting
  import Seqs

  // ----- what a split output records -----

  /** The calls of an output so far: allowed, one channel, and its share of the messages accepted. */
  ghost predicate Records(c: Config, d: ChannelDef, calls: seq<Call>, share: seq<Msg>)
    requires |c.sessionId| == 16
  {
    && AllAllowed(c, Opened(c), calls)
    && Run(c, Opened(c), calls).channels == [d.(id := 0)]
    && Accepted(c, Opened(c), calls) == share
    && DefinesShort(calls)
  }

  lemma FirstCall(c: Config, d: ChannelDef)
    requires |c.sessionId| == 16 && d.name != [] && ShortNames(d) && Permitted(c, [DefineChannel(d)])
    ensures Records(c, d, [DefineChannel(d)], [])
  {
    hide StoredDef, Fresh;
    var L := Opened(c);
    RunSnoc(c, L, [], DefineChannel(d));
    assert [] + [DefineChannel(d)] == [DefineChannel(d)];
  }

  lemma NextCall(c: Config, d: ChannelDef, calls: seq<Call>, share: seq<Msg>, call: Call)
    requires |c.sessionId| == 16 && Records(c, d, calls, share) && Permitted(c, calls + [call])
    requires call.AddAnnotation? || (call.WriteMessage? && call.m.ch == 0)
    ensures Records(c, d, calls + [call], share + if call.WriteMessage? then [call.m] else [])
  {
    hide StoredDef, Opened, StoredAnnotation, Write, FlushAll, Allowed, ShortNames;
    OpenedIsShaped(c);
    RunSnoc(c, Opened(c), calls, call);
  }

  lemma Earlier(c: Config, calls: seq<Call>, more: seq<Call>)
    requires Permitted(c, calls + more)
    ensures Permitted(c, calls)
  {
    OpenedIsShaped(c);
    RunJoins(c, Opened(c), calls, more);
  }

  lemma {:induction false} ShareRuns(c: Config, d: ChannelDef, defs: seq<ChannelDef>, clock: nat -> bool, ms: seq<Msg>, i: nat)
    requires |c.sessionId| == 16 && d.name != [] && ShortNames(d) && Permitted(c, [DefineChannel(d)] + ShareCalls(defs, clock, ms, i))
    ensures Records(c, d, [DefineChannel(d)] + ShareCalls(defs, clock, ms, i), Share(defs, ms, i))
    decreases |ms|
  {
    hide Records, IndexOf, ShortNames, Permitted;
    var first := [DefineChannel(d)];
    if ms == [] {
      assert first + [] == first;
      FirstCall(c, d);
    } else {
      var n := |ms| - 1;
      var calls, share := ShareCalls(defs, clock, ms[..n], i), Share(defs, ms[..n], i);
      if IndexOf(defs, ms[n].ch) == i {
        var call := WriteMessage(Msg(0, ms[n].ts, ms[n].data), clock(n));
        Seqs.Regroup(first, calls, [call]);
        Earlier(c, first + calls, [call]);
        ShareRuns(c, d, defs, clock, ms[..n], i);
        NextCall(c, d, first + calls, share, call);
      } else {
        assert calls + [] == calls && share + [] == share;
        ShareRuns(c, d, defs, clock, ms[..n], i);
      }
    }
  }

  lemma {:induction false} NotesRun(c: Config, d: ChannelDef, calls: seq<Call>, share: seq<Msg>, notes: seq<Note>)
    requires |c.sessionId| == 16 && Records(c, d, calls, share) && Permitted(c, calls + NoteCalls(notes))
    ensures Records(c, d, calls + NoteCalls(notes), share)
    decreases |notes|
  {
    hide Records, Permitted, StoredAnnotation;
    if notes == [] {
      assert calls + [] == calls;
    } else {
      var n := |notes| - 1;
      var call := AddAnnotation(notes[n].ts, notes[n].text, notes[n].metadata);
      Seqs.Regroup(calls, NoteCalls(notes[..n]), [call]);
      Earlier(c, calls + NoteCalls(notes[..n]), [call]);
      NotesRun(c, d, calls, share, notes[..n]);
      NextCall(c, d, calls + NoteCalls(notes[..n]), share, call);
      assert share + [] == share;
    }
  }

  lemma SplitRecords(lib: Library, input: Input, opts: SplitOptions, progress: nat -> bool, clock: nat -> bool, c: Config, i: nat)
    requires |c.sessionId| == 16 && i < |SplitDefs(input, opts)| && Permitted(c, SplitCalls(lib, input, opts, progress, clock)[i])
    requires var d := SplitDefs(input, opts)[i]; d.name != [] && ShortNames(d)
    ensures Records(c, SplitDefs(input, opts)[i], SplitCalls(lib, input, opts, progress, clock)[i],
                    Share(SplitDefs(input, opts), Passed(progress, 0, StreamOf(lib, input)), i))
  {
    hide Records, ShortNames, Permitted, StreamOf, NotesOf, Share, ShareCalls, Extracted, ChannelsOf, NoteCalls, Passed;
    var defs, ms, notes := SplitDefs(input, opts), Passed(progress, 0, StreamOf(lib, input)), NotesOf(input);
    var calls := [DefineChannel(defs[i])] + ShareCalls(defs, clock, ms, i);
    assert notes[..|notes|] == notes;
    if opts.includeAnnotations {
      Earlier(c, calls, NoteCalls(notes));
    }
    ShareRuns(c, defs[i], defs, clock, ms, i);
    if opts.includeAnnotations {
      NotesRun(c, defs[i], calls, Share(defs, ms, i), notes);
    }
  }

  lemma {:induction false} AllPass(progress: nat -> bool, done: nat, ms: seq<Msg>)
    requires forall n: nat :: progress(n)
    ensures Passed(progress, done, ms) == ms
    decreases |ms|
  {
    if ms != [] {
      AllPass(progress, done + |ms[0].data|, ms[1..]);
      assert ms == [ms[0]] + ms[1..];
    }
  }

  // ----- the shares of a session -----

  lemma {:induction false} AloneConcat(a: seq<Msg>, b: seq<Msg>)
    ensures Alone(a + b) == Alone(a) + Alone(b)
  {
    assert forall i :: 0 <= i < |a + b| ==> Alone(a + b)[i] == (Alone(a) + Alone(b))[i];
  }

  /**
   * What a split delivers, by all channels or by requested ids: output i gets exactly the messages of
   * its channel, in order; an output whose channel was requested before gets nothing.
   */
  lemma {:induction false} ShareIsAlone(defs: seq<ChannelDef>, ms: seq<Msg>, i: nat)
    requires i < |defs|
    ensures Share(defs, ms, i) == if IndexOf(defs, defs[i].id) == i then Alone(Only(ms, defs[i].id)) else []
    decreases |ms|
  {
    if ms != [] {
      var n := |ms| - 1;
      var m, id := ms[n], defs[i].id;
      ShareIsAlone(defs, ms[..n], i);
      assert ms == ms[..n] + [m];
      OnlyConcat(ms[..n], [m], id);
      OneOnly(m, id);
      AloneConcat(Only(ms[..n], id), Only([m], id));
      assert IndexOf(defs, m.ch) == i ==> m.ch == id;
      assert Alone([m]) == [Msg(0, m.ts, m.data)] && Alone([]) == [];
    }
  }

  lemma OneOnly(m: Msg, i: u16)
    ensures Only([m], i) == if m.ch == i then [m] else []
  {
    assert [m][1..] == [];
  }

  /** A stream that agrees channel by channel with one that uses a single channel is that stream. */
  lemma SingleChannel(a: seq<Msg>, b: seq<Msg>)
    requires SameChannelwise(a, b) && forall m :: m in b ==> m.ch == 0
    ensures a == b
  {
    hide Only;
    forall m | m in a
      ensures m.ch == 0
    {
      OnlyMembers(a, m.ch);
      OnlyMembers(b, m.ch);
    }
    OnlyOf(a, 0, 0);
    OnlyOf(b, 0, 0);
  }

  /** Reading an output gives its share of the source, and its one channel. */
  lemma OutputReadsBack(lib: Library, c: Config, d: ChannelDef, calls: seq<Call>, share: seq<Msg>, part: Input)
    requires Usable(c) && c.lib == lib && Records(c, d, calls, share)
    requires forall m :: m in share ==> m.ch == 0
    requires ChunksCompressed(c, Closing(c, Run(c, Opened(c), calls)))
    requires FileList(part.sources) == SessionFiles(c, calls) && (part.known == [] || part.known == [d.(id := 0)])
    ensures StreamOf(lib, part) == share && ChannelsOf(part) == [d.(id := 0)] && NotesOf(part) == Annotated(calls)
  {
    hide Opened, AllAllowed, Accepted, SessionFiles, ChunksCompressed, Usable, DefinesShort, Closing, SessionRecords, Msgs, Known, Notes, Only, FileList, Annotated;
    forall k: u16
      ensures Only(SessionMsgs(lib, SessionFiles(c, calls)), k) == Only(share, k)
    {
      ReplayedByChannel(c, calls, k);
    }
    SingleChannel(SessionMsgs(lib, SessionFiles(c, calls)), share);
    ReopenedSays(c, calls);
  }

  // ----- the channel map of the parts -----

  /** One channel per part. */
  function Singles(defs: seq<ChannelDef>): (r: seq<seq<ChannelDef>>)
    ensures |r| == |defs|
    ensures forall i :: 0 <= i < |defs| ==> r[i] == [defs[i].(id := 0)]
  {
    seq(|defs|, i requires 0 <= i < |defs| => [defs[i].(id := 0)])
  }

  /** Part i goes to merged channel i, which has the name of channel i. */
  ghost predicate Straight(m: ChannelMap, defs: seq<ChannelDef>, n: nat) {
    && m.ok && |m.channels| == |m.links| == n <= |defs|
    && forall i :: 0 <= i < n ==> m.links[i] == Link(i, 0, i) && m.channels[i].name == defs[i].name
  }

  lemma StraightStep(m: ChannelMap, defs: seq<ChannelDef>, k: nat, allow: bool)
    requires Straight(m, defs, k) && k < |defs| && DistinctNames(defs)
    ensures Straight(WithChannel(m, k, defs[k].(id := 0), allow), defs, k + 1)
  {
    var at := Position(m.channels, defs[k].name);
    assert forall i :: 0 <= i < k ==> m.channels[i].name == defs[i].name != defs[k].name;
  }

  lemma {:induction false} MapOfSingles(defs: seq<ChannelDef>, n: nat, allow: bool)
    requires n <= |defs| && DistinctNames(defs)
    ensures Straight(MapOf(Singles(defs)[..n], allow), defs, n)
    decreases n
  {
    hide Straight, DistinctNames, WithChannel;
    if n > 0 {
      var lists, k := Singles(defs), n - 1;
      assert lists[..n][..k] == lists[..k];
      MapOfSingles(defs, k, allow);
      var m := MapOf(lists[..k], allow);
      StraightStep(m, defs, k, allow);
      OneOf(m, k, defs[k].(id := 0), allow);
    } else {
      NothingMapped(defs, allow);
      assert Singles(defs)[..0] == [];
    }
  }

  lemma NothingMapped(defs: seq<ChannelDef>, allow: bool)
    ensures Straight(MapOf([], allow), defs, 0)
  {
  }

  lemma OneOf(m: ChannelMap, source: nat, d: ChannelDef, allow: bool)
    ensures WithSource(m, source, [d], allow) == WithChannel(m, source, d, allow)
  {
    hide WithChannel;
    assert [d][..0] == [];
  }

  lemma {:induction false} TargetOfSingles(links: seq<Link>, n: nat, s: nat)
    requires n <= |links| && forall i :: 0 <= i < |links| ==> links[i] == Link(i, 0, i)
    ensures Target(links[..n], s, 0) == if s < n then Some(s) else None
    decreases n
  {
    if n > 0 {
      assert links[..n][..n - 1] == links[..n - 1];
      TargetOfSingles(links, n - 1, s);
    }
  }

  lemma {:induction false} RoutedIsRenamed(links: seq<Link>, picks: seq<Pick>)
    requires |links| <= 0x1_0000 && forall i :: 0 <= i < |links| ==> links[i] == Link(i, 0, i)
    requires forall p :: p in picks ==> p.source < |links| && p.m.ch == 0
    ensures AllLand(links, picks) && Routed(links, picks) == Renamed(picks)
    decreases |picks|
  {
    hide Target;
    if picks != [] {
      var p := picks[0];
      assert links[..|links|] == links;
      TargetOfSingles(links, |links|, p.source);
      RoutedIsRenamed(links, picks[1..]);
      assert picks == [p] + picks[1..];
    }
  }

  // ----- split, then merge -----

  /** The parts are the split outputs, read back with or without their manifests. */
  ghost predicate PartsOf(lib: Library, input: Input, opts: SplitOptions, envs: nat -> Config, clock: nat -> bool, parts: seq<Input>) {
    var defs := SplitDefs(input, opts);
    && |parts| == |defs|
    && forall i :: 0 <= i < |defs| ==>
         var c, calls := OutputConfig(envs(i), SegmentLimit(input, opts)), SplitCalls(lib, input, opts, Uncancelled, clock)[i];
         && Usable(c) && c.lib == lib
         && ChunksCompressed(c, Closing(c, Run(c, Opened(c), calls)))
         && FileList(parts[i].sources) == SessionFiles(c, calls)
         && (parts[i].known == [] || parts[i].known == [defs[i].(id := 0)])
  }

  ghost predicate Positional(defs: seq<ChannelDef>) { forall i :: 0 <= i < |defs| ==> defs[i].id == i }

  /** A session as the recorder writes it: channels numbered by position, with short, distinct names. */
  ghost predicate WellNamed(defs: seq<ChannelDef>) {
    && |defs| <= 0xFFFE && Positional(defs) && DistinctNames(defs)
    && forall i :: 0 <= i < |defs| ==> defs[i].name != [] && ShortNames(defs[i])
  }

  lemma PartReadsBack(lib: Library, input: Input, opts: SplitOptions, envs: nat -> Config, clock: nat -> bool, parts: seq<Input>, i: u16)
    requires PartsOf(lib, input, opts, envs, clock, parts) && Splittable(lib, input, opts, envs, Uncancelled, clock) && opts.channelIds == []
    requires WellNamed(ChannelsOf(input)) && (forall m :: m in StreamOf(lib, input) ==> m.ch < |ChannelsOf(input)|)
    requires i < |ChannelsOf(input)|
    ensures StreamOf(lib, parts[i]) == Alone(Only(StreamOf(lib, input), i))
    ensures ChannelsOf(parts[i]) == [ChannelsOf(input)[i].(id := 0)]
  {
    hide Usable, ChunksCompressed, Closing, SessionFiles, Opened, SplitCalls, StreamOf, ChannelsOf, Records, ShortNames, Permitted,
      Share, Only, FileList, SegmentLimit, Run, Alone, Passed;
    var defs, ms := ChannelsOf(input), StreamOf(lib, input);
    var c, calls := OutputConfig(envs(i), SegmentLimit(input, opts)), SplitCalls(lib, input, opts, Uncancelled, clock)[i];
    UsableSession(c);
    SplitRecords(lib, input, opts, Uncancelled, clock, c, i);
    AllPass(Uncancelled, 0, ms);
    ShareIsAlone(defs, ms, i);
    assert defs[i].id == i == IndexOf(defs, i) by { OwnPosition(defs, i); }
    OutputReadsBack(lib, c, defs[i], calls, Share(defs, ms, i), parts[i]);
  }

  lemma OwnPosition(defs: seq<ChannelDef>, i: u16)
    requires Positional(defs) && i < |defs|
    ensures defs[i].id == i == IndexOf(defs, i)
  {
    assert defs[IndexOf(defs, i)].id == i;
  }

  lemma UsableSession(c: Config)
    requires Usable(c)
    ensures |c.sessionId| == 16
  {
  }

  lemma MergeOfParts(lib: Library, source: seq<Msg>, defs: seq<ChannelDef>, parts: seq<Input>, opts: MergeOptions)
    requires WellNamed(defs) && |parts| == |defs| && (forall m :: m in source ==> m.ch < |defs|)
    requires forall i: u16 :: i < |defs| ==>
               StreamOf(lib, parts[i]) == Alone(Only(source, i)) && ChannelsOf(parts[i]) == [defs[i].(id := 0)]
    ensures SplitUp(source, Streams(lib, parts))
    ensures var m := MapOf(ChannelLists(parts), opts.mergeDuplicates);
            && Straight(m, defs, |defs|)
            && AllLand(m.links, Picks(Uncancelled, 0, Streams(lib, parts)))
            && (forall p :: p in Order(Streams(lib, parts)) ==> p.source < 0x1_0000)
            && MergedWrites(lib, parts, opts, Uncancelled) == Renamed(Order(Streams(lib, parts)))
  {
    hide StreamOf, ChannelsOf, ShortNames, Only, Alone, Order, Renamed, Routed, AllLand, Until;
    assert ChannelLists(parts) == Singles(defs);
    var lists, streams := Singles(defs), Streams(lib, parts);
    assert lists[..|lists|] == lists;
    MapOfSingles(defs, |defs|, opts.mergeDuplicates);
    var m := MapOf(lists, opts.mergeDuplicates);
    OrderIsFromSources(streams);
    forall p | p in Order(streams)
      ensures p.source < |defs| && p.m.ch == 0
    {
      AloneOnZero(Only(source, p.source));
    }
    NeverCancelled(Uncancelled, 0, Order(streams));
    RoutedIsRenamed(m.links, Order(streams));
  }

  lemma AloneOnZero(ms: seq<Msg>)
    ensures forall m :: m in Alone(ms) ==> m.ch == 0
  {
  }

  /**
   * Split, then merge: for a session with channels numbered by position, short distinct names and
   * timestamps that never decrease and stay below the sentinel, the merge of the per-channel outputs
   * in channel order writes the stable sort of the source stream by timestamp and channel; and the
   * source stream itself when its timestamps strictly increase.
   */
  lemma SplitThenMerge(lib: Library, input: Input, opts: SplitOptions, envs: nat -> Config, clock: nat -> bool,
                       parts: seq<Input>, mergeOpts: MergeOptions)
    requires PartsOf(lib, input, opts, envs, clock, parts) && Splittable(lib, input, opts, envs, Uncancelled, clock) && opts.channelIds == []
    requires WellNamed(ChannelsOf(input)) && (forall m :: m in StreamOf(lib, input) ==> m.ch < |ChannelsOf(input)|)
    requires RisingMsgs(StreamOf(lib, input)) && forall m :: m in StreamOf(lib, input) ==> m.ts < U64_MAX
    ensures var source, writes := StreamOf(lib, input), MergedWrites(lib, parts, mergeOpts, Uncancelled);
            && StableSort(writes, source)
            && (Increasing(source) ==> writes == source)
    ensures var m := MapOf(ChannelLists(parts), mergeOpts.mergeDuplicates);
            && Straight(m, ChannelsOf(input), |ChannelsOf(input)|)
            && AllLand(m.links, Picks(Uncancelled, 0, Streams(lib, parts)))
  {
    hide PartsOf, Straight, StreamOf, ChannelsOf, Splittable, WellNamed, AllLand, Picks, MapOf, ChannelLists, Streams, MergedWrites, StableSort, RisingMsgs, Increasing, SplitUp, Order, Renamed;
    var source, defs := StreamOf(lib, input), ChannelsOf(input);
    HowMany(lib, input, opts, envs, clock, parts);
    forall i: u16 | i < |defs|
      ensures StreamOf(lib, parts[i]) == Alone(Only(source, i)) && ChannelsOf(parts[i]) == [defs[i].(id := 0)]
    {
      PartReadsBack(lib, input, opts, envs, clock, parts, i);
    }
    MergeOfParts(lib, source, defs, parts, mergeOpts);
    SplitThenMergeSorts(source, Streams(lib, parts));
    if Increasing(source) {
      StrictIsSorted(MergedWrites(lib, parts, mergeOpts, Uncancelled), source);
    }
  }

  lemma HowMany(lib: Library, input: Input, opts: SplitOptions, envs: nat -> Config, clock: nat -> bool, parts: seq<Input>)
    requires PartsOf(lib, input, opts, envs, clock, parts) && opts.channelIds == []
    ensures |parts| == |ChannelsOf(input)|
  {
    hide Usable, ChunksCompressed, Closing, SessionFiles, Opened, SplitCalls, ChannelsOf, FileList, SegmentLimit, Run;
  }
}
