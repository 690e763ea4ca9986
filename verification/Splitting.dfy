/** Split: one session into several, one for each extracted channel. */
module Splitting {
  import opened Bytes
  import opened Outcomes
  import opened Routines
  import opened Stream
  import opened Recording
  import opened Lookup
  import opened Conservation
  import opened Runs
  import opened RoundTrip
  import opened Opening
  import opened Playback
  import opened Sessions
  import opened Inputs
  import opened Merging
  import Writer
  import Seqs

  // ----- which channels, and where their messages go -----

  datatype SplitOptions = SplitOptions(channelIds: seq<u16>, maxSegmentBytes: nat, includeAnnotations: bool)

  const DEFAULT_MAX_SEGMENT_BYTES: nat := 0x4000_0000

  function Picked(channels: seq<ChannelDef>, ids: seq<u16>): seq<ChannelDef> {
    if ids == [] then []
    else
      var k := IndexOf(channels, ids[|ids| - 1]);
      Picked(channels, ids[..|ids| - 1]) + if k < |channels| then [channels[k]] else []
  }

  function Extracted(channels: seq<ChannelDef>, ids: seq<u16>): seq<ChannelDef> {
    if ids == [] then channels else Picked(channels, ids)
  }

  method Extract(channels: seq<ChannelDef>, ids: seq<u16>) returns (defs: seq<ChannelDef>)
    ensures defs == Extracted(channels, ids)
    ensures if ids == [] then defs == channels else exists from :: Granted(channels, ids, defs, from)
  {
    hide Granted;
    ghost var from := ExtractedAreGranted(channels, ids);
    if |ids| == 0 {
      return channels;
    }
    defs := [];
    for i := 0 to |ids|
      invariant defs == Picked(channels, ids[..i])
    {
      assert ids[..i + 1][..i] == ids[..i];
      var k := FindId(channels, ids[i]);
      if k < |channels| {
        defs := defs + [channels[k]];
      }
    }
    assert ids[..|ids|] == ids;
  }

  ghost predicate FirstWithId(channels: seq<ChannelDef>, k: nat, id: u16) {
    k < |channels| && channels[k].id == id && forall j :: 0 <= j < k ==> channels[j].id != id
  }

  /** The first definition with the number. */
  ghost predicate Answers(channels: seq<ChannelDef>, id: u16, d: ChannelDef) {
    exists k: nat :: FirstWithId(channels, k, id) && d == channels[k]
  }

  /**
   * One definition for every request that names a channel, in the order of the requests: from[t] is
   * the request that definition t answers, whole and the first of its number.
   */
  ghost predicate Granted(channels: seq<ChannelDef>, ids: seq<u16>, defs: seq<ChannelDef>, from: seq<nat>) {
    && |from| == |defs|
    && (forall t :: 0 <= t < |from| ==> from[t] < |ids| && Answers(channels, ids[from[t]], defs[t]))
    && (forall t, u :: 0 <= t < u < |from| ==> from[t] < from[u])
    && forall p: nat :: p < |ids| && p !in from ==> forall d :: d in channels ==> d.id != ids[p]
  }

  lemma GrantedOn(channels: seq<ChannelDef>, ids: seq<u16>, defs: seq<ChannelDef>, from: seq<nat>, id: u16, k: nat)
    requires Granted(channels, ids, defs, from) && FirstWithId(channels, k, id)
    ensures Granted(channels, ids + [id], defs + [channels[k]], from + [|ids|])
  {
    assert Answers(channels, id, channels[k]);
    hide Answers;
  }

  lemma NotGranted(channels: seq<ChannelDef>, ids: seq<u16>, defs: seq<ChannelDef>, from: seq<nat>, id: u16)
    requires Granted(channels, ids, defs, from) && forall d :: d in channels ==> d.id != id
    ensures Granted(channels, ids + [id], defs, from)
  {
    hide Answers;
  }

  /** The channels a request picks: those asked for that there are, in request order, repeated when asked for again. */
  lemma {:induction false} PickedAreGranted(channels: seq<ChannelDef>, ids: seq<u16>) returns (from: seq<nat>)
    ensures Granted(channels, ids, Picked(channels, ids), from)
    decreases |ids|
  {
    if ids == [] {
      from := [];
    } else {
      hide Granted;
      var n := |ids| - 1;
      var k := IndexOf(channels, ids[n]);
      from := PickedAreGranted(channels, ids[..n]);
      assert ids == ids[..n] + [ids[n]];
      if k < |channels| {
        GrantedOn(channels, ids[..n], Picked(channels, ids[..n]), from, ids[n], k);
        from := from + [n];
      } else {
        NotGranted(channels, ids[..n], Picked(channels, ids[..n]), from, ids[n]);
      }
    }
  }

  /** All channels when none is asked for, otherwise the ones asked for. */
  lemma ExtractedAreGranted(channels: seq<ChannelDef>, ids: seq<u16>) returns (from: seq<nat>)
    ensures if ids == [] then Extracted(channels, ids) == channels else Granted(channels, ids, Extracted(channels, ids), from)
  {
    from := PickedAreGranted(channels, ids);
  }

  /** What output i receives of a stream: the messages whose channel is first listed at i, put on channel 0. */
  function Share(defs: seq<ChannelDef>, ms: seq<Msg>, i: nat): seq<Msg> {
    if ms == [] then []
    else
      var m := ms[|ms| - 1];
      Share(defs, ms[..|ms| - 1], i) + if IndexOf(defs, m.ch) == i then [Msg(0, m.ts, m.data)] else []
  }

  /** The messages up to and including the first after which the progress callback cancels. */
  function Passed(progress: nat -> bool, done: nat, ms: seq<Msg>): seq<Msg>
    decreases |ms|
  {
    if ms == [] then []
    else if !progress(done + |ms[0].data|) then [ms[0]]
    else [ms[0]] + Passed(progress, done + |ms[0].data|, ms[1..])
  }

  /** The bytes of message data. */
  ghost function DataSize(ms: seq<Msg>): nat { if ms == [] then 0 else |ms[0].data| + DataSize(ms[1..]) }

  /** How many messages pass: all, or up to the first number of bytes that the callback refuses. */
  ghost predicate CutShort(progress: nat -> bool, done: nat, ms: seq<Msg>, n: nat) {
    && n <= |ms| && (forall k :: 0 < k < n ==> progress(done + DataSize(ms[..k])))
    && (n < |ms| ==> n > 0 && !progress(done + DataSize(ms[..n])))
  }

  lemma SizeOfFirst(ms: seq<Msg>)
    requires ms != []
    ensures forall k :: 0 < k <= |ms| ==> DataSize(ms[..k]) == |ms[0].data| + DataSize(ms[1..][..k - 1])
    ensures DataSize([]) == 0
  {
    forall k | 0 < k <= |ms|
      ensures DataSize(ms[..k]) == |ms[0].data| + DataSize(ms[1..][..k - 1])
    {
      assert ms[..k][1..] == ms[1..][..k - 1];
    }
  }

  lemma CutShortOn(progress: nat -> bool, done: nat, ms: seq<Msg>, n: nat)
    requires ms != [] && n > 0 && progress(done + |ms[0].data|)
    requires CutShort(progress, done + |ms[0].data|, ms[1..], n - 1)
    ensures CutShort(progress, done, ms, n)
  {
    SizeOfFirst(ms);
    hide DataSize;
    assert ms[1..][..0] == [];
  }

  lemma CutAtOnce(progress: nat -> bool, done: nat, ms: seq<Msg>)
    requires ms != [] && !progress(done + |ms[0].data|)
    ensures CutShort(progress, done, ms, 1)
  {
    assert ms[..1][1..] == [];
  }

  /** Cancelling leaves a prefix, and says where it ends. */
  lemma {:induction false} PassedIsPrefix(progress: nat -> bool, done: nat, ms: seq<Msg>)
    ensures var n := |Passed(progress, done, ms)|; n <= |ms| && Passed(progress, done, ms) == ms[..n] && CutShort(progress, done, ms, n)
    decreases |ms|
  {
    if ms == [] {
    } else {
      hide DataSize, CutShort;
      var rest, more := ms[1..], done + |ms[0].data|;
      PassedIsPrefix(progress, more, rest);
      var n := |Passed(progress, done, ms)|;
      SizeOfFirst(ms);
      if !progress(more) {
        assert ms[..1] == [ms[0]];
        CutAtOnce(progress, done, ms);
      } else {
        assert ms[..n] == [ms[0]] + rest[..n - 1];
        CutShortOn(progress, done, ms, n);
      }
    }
  }

  // ----- several recorders at once -----

  type Recorder = Writer.RecorderSession

  /** A driven recorder that touches nothing but its own objects. */
  ghost predicate Held(w: Recorder, made: seq<Call>, feet: set<object>)
    reads w, feet
  {
    Footprint(w) == feet && (Covers(w); Driven(w, made))
  }

  lemma HeldFacts(w: Recorder, made: seq<Call>, feet: set<object>)
    ensures Held(w, made, feet) <==> Footprint(w) == feet && Driven(w, made)
    ensures Held(w, made, feet) ==> w in feet && Shaped(w.Cfg, w.L)
  {
    Covers(w);
    if Driven(w, made) {
      DrivenFacts(w, made);
    }
  }

  ghost predicate Apart(feet: seq<set<object>>) { forall i, j :: 0 <= i < j < |feet| ==> feet[i] !! feet[j] }

  ghost function Union(feet: seq<set<object>>): set<object> { set i, o | 0 <= i < |feet| && o in feet[i] :: o }

  /** Each recorder has been opened and given its calls, and none shares anything with another. */
  ghost predicate AllHeld(outs: seq<Recorder>, calls: seq<seq<Call>>, feet: seq<set<object>>)
    reads (set i | 0 <= i < |outs| :: outs[i]), Union(feet)
  {
    && |outs| == |calls| == |feet| && Apart(feet)
    && forall i :: 0 <= i < |outs| ==> feet[i] <= Union(feet) && Held(outs[i], calls[i], feet[i])
  }

  /** One more call on one of the recorders; the others do not notice. */
  method StepAmong(outs: seq<Recorder>, i: nat, call: Call, ghost calls: seq<seq<Call>>, ghost feet: seq<set<object>>)
      returns (ghost feet': seq<set<object>>)
    requires AllHeld(outs, calls, feet) && i < |outs| && Allowed(outs[i].L, call)
    modifies Union(feet)
    ensures |calls| == |outs| && AllHeld(outs, calls[i := calls[i] + [call]], feet')
    ensures forall o :: o in Union(feet') ==> o in Union(feet) || fresh(o)
    ensures Shaped(outs[i].Cfg, old(outs[i].L)) && outs[i].L == After(outs[i].Cfg, old(outs[i].L), call)
    ensures outs[i].Accepted == old(outs[i].Accepted) + Taken(old(outs[i].L), call)
    ensures forall j :: 0 <= j < |outs| && j != i ==> outs[j].L == old(outs[j].L) && outs[j].Accepted == old(outs[j].Accepted)
  {
    hide Held, Driven, Footprint, Shaped, After, Taken, Allowed, Opened;
    HeldFacts(outs[i], calls[i], feet[i]);
    assert feet[i] <= Union(feet);
    forall j | 0 <= j < |outs| && j != i
      ensures outs[j] in feet[j] && feet[i] !! feet[j]
    {
      HeldFacts(outs[j], calls[j], feet[j]);
    }
    var taken := Step(outs[i], call, calls[i]);
    forall j | 0 <= j < |outs| && j != i
      ensures Held(outs[j], calls[j], feet[j])
    {
      assert old(Held(outs[j], calls[j], feet[j]));
    }
    feet' := feet[i := Footprint(outs[i])];
    HeldFacts(outs[i], calls[i] + [call], feet'[i]);
    Regather(outs, calls[i := calls[i] + [call]], feet');
  }

  lemma Regather(outs: seq<Recorder>, calls: seq<seq<Call>>, feet: seq<set<object>>)
    requires |outs| == |calls| == |feet| && Apart(feet)
    requires forall i :: 0 <= i < |outs| ==> Held(outs[i], calls[i], feet[i])
    ensures AllHeld(outs, calls, feet)
  {
    hide Held;
    forall i | 0 <= i < |outs|
      ensures feet[i] <= Union(feet)
    {
    }
  }

  // ----- opening the outputs -----

  method OpenOut(config: Config, d: ChannelDef) returns (st: Status, w: Recorder)
    requires Usable(Writer.Normalised(config)) && DefsFit([d])
    ensures st == if d.name == [] then ErrorInvalidArg else Ok
    ensures fresh(Footprint(w)) && w.Cfg == Writer.Normalised(config) && w.Accepted == []
    ensures Held(w, [DefineChannel(d)], Footprint(w))
    ensures st == Ok ==> w.L.channels == [d.(id := 0)]
  {
    hide *;
    w := Start(config);
    StartIsEmpty(w);
    DrivenFacts(w, []);
    ghost var L := w.L;
    DefineAllowed(L, d);
    var id;
    st, id := StepDefine(w, d, []);
    FirstDefined(w.Cfg, L, d, st, id);
    assert [] + [DefineChannel(d)] == [DefineChannel(d)];
    HeldFacts(w, [DefineChannel(d)], Footprint(w));
  }

  lemma DefineAllowed(L: Log, d: ChannelDef)
    requires DefsFit([d])
    ensures Allowed(L, DefineChannel(d))
  {
    hide StoredDef;
    assert [d][0] == d;
  }

  lemma FirstDefined(c: Config, L: Log, d: ChannelDef, st: Status, id: u16)
    requires Shaped(c, L) && L.channels == [] && Writer.DefineOutcome(L, d, st, id)
    ensures st == if d.name == [] then ErrorInvalidArg else Ok
    ensures st == Ok ==> After(c, L, DefineChannel(d)).channels == [d.(id := 0)]
  {
  }

  /** The calls every output starts with. */
  function Openings(defs: seq<ChannelDef>): (calls: seq<seq<Call>>)
    ensures |calls| == |defs|
    ensures forall i :: 0 <= i < |defs| ==> calls[i] == [DefineChannel(defs[i])]
  {
    seq(|defs|, i requires 0 <= i < |defs| => [DefineChannel(defs[i])])
  }

  /** Each output records its one channel with its own configuration. */
  ghost predicate OutsFor(outs: seq<Recorder>, defs: seq<ChannelDef>, envs: nat -> Config, maxBytes: nat)
    reads set i | 0 <= i < |outs| :: outs[i]
  {
    && |outs| == |defs|
    && forall i :: 0 <= i < |outs| ==>
         outs[i].Cfg == OutputConfig(envs(i), maxBytes) && outs[i].L.channels == [defs[i].(id := 0)]
  }

  lemma GatherOne(outs: seq<Recorder>, calls: seq<seq<Call>>, feet: seq<set<object>>, w: Recorder, made: seq<Call>, foot: set<object>)
    requires AllHeld(outs, calls, feet) && Held(w, made, foot) && Union(feet) !! foot
    ensures AllHeld(outs + [w], calls + [made], feet + [foot])
    ensures Union(feet + [foot]) == Union(feet) + foot
  {
    hide Held;
    PartsWithin(feet);
    Regather(outs + [w], calls + [made], feet + [foot]);
    UnionSnoc(feet, foot);
  }

  lemma NoFeet()
    ensures Union([]) == {}
  {
  }

  lemma PartsWithin(feet: seq<set<object>>)
    ensures forall k :: 0 <= k < |feet| ==> feet[k] <= Union(feet)
  {
  }

  lemma UnionSnoc(feet: seq<set<object>>, foot: set<object>)
    ensures Union(feet + [foot]) == Union(feet) + foot
  {
    var more := feet + [foot];
    forall o | o in Union(feet) + foot
      ensures o in Union(more)
    {
      if o in foot {
        assert o in more[|feet|];
      } else {
        var i :| 0 <= i < |feet| && o in feet[i];
        assert o in more[i];
      }
    }
  }

  lemma NoOuts(envs: nat -> Config, maxBytes: nat)
    ensures OutsFor([], [], envs, maxBytes)
  {
  }

  lemma OneMoreOut(outs: seq<Recorder>, defs: seq<ChannelDef>, w: Recorder, d: ChannelDef, envs: nat -> Config, maxBytes: nat)
    requires OutsFor(outs, defs, envs, maxBytes) && w.Cfg == OutputConfig(envs(|outs|), maxBytes) && w.L.channels == [d.(id := 0)]
    ensures OutsFor(outs + [w], defs + [d], envs, maxBytes)
  {
  }

  /** One recorder for each extracted channel; a channel without a name spoils the split. */
  method OpenOuts(defs: seq<ChannelDef>, envs: nat -> Config, maxBytes: nat)
      returns (st: Status, outs: seq<Recorder>, ghost calls: seq<seq<Call>>, ghost feet: seq<set<object>>)
    requires forall i: nat :: Usable(OutputConfig(envs(i), maxBytes))
    requires DefsFit(defs)
    ensures AllHeld(outs, calls, feet) && fresh(Union(feet))
    ensures forall i :: 0 <= i < |outs| ==> outs[i].Accepted == []
    ensures st == if exists i :: 0 <= i < |defs| && defs[i].name == [] then ErrorInvalidArg else Ok
    ensures st == Ok ==> calls == Openings(defs) && OutsFor(outs, defs, envs, maxBytes)
  {
    hide Held, Footprint, Usable, DefsFit, AllHeld, OutsFor;
    NoOuts(envs, maxBytes);
    outs, calls, feet := [], [], [];
    Regather(outs, calls, feet);
    NoFeet();
    st := Ok;
    for i := 0 to |defs|
      invariant st == Ok && |outs| == i && AllHeld(outs, calls, feet) && fresh(Union(feet))
      invariant forall k :: 0 <= k < i ==> defs[k].name != [] && outs[k].Accepted == []
      invariant calls == Openings(defs[..i]) && OutsFor(outs, defs[..i], envs, maxBytes)
    {
      OneSized(defs, i);
      var w;
      st, w := OpenOut(OutputConfig(envs(i), maxBytes), defs[i]);
      GatherOne(outs, calls, feet, w, [DefineChannel(defs[i])], Footprint(w));
      outs, calls, feet := outs + [w], calls + [[DefineChannel(defs[i])]], feet + [Footprint(w)];
      if st != Ok {
        assert defs[i].name == [];
        return;
      }
      assert defs[..i + 1] == defs[..i] + [defs[i]];
      OneMoreOut(outs[..i], defs[..i], w, defs[i], envs, maxBytes);
    }
    assert defs[..|defs|] == defs;
  }

  lemma OneSized(defs: seq<ChannelDef>, i: nat)
    requires DefsFit(defs) && i < |defs|
    ensures DefsFit([defs[i]])
  {
    hide StoredDef;
  }

  // ----- routing -----

  /** The Write calls output i gets for these messages; the n-th message routed is written at the n-th reading of the clock. */
  function ShareCalls(defs: seq<ChannelDef>, clock: nat -> bool, ms: seq<Msg>, i: nat): seq<Call> {
    if ms == [] then []
    else
      var m := ms[|ms| - 1];
      ShareCalls(defs, clock, ms[..|ms| - 1], i)
      + if IndexOf(defs, m.ch) == i then [WriteMessage(Msg(0, m.ts, m.data), clock(|ms| - 1))] else []
  }

  /** The calls of every output after these messages have been routed. */
  function Routings(defs: seq<ChannelDef>, clock: nat -> bool, ms: seq<Msg>): (calls: seq<seq<Call>>)
    ensures |calls| == |defs|
    ensures forall i :: 0 <= i < |defs| ==> calls[i] == [DefineChannel(defs[i])] + ShareCalls(defs, clock, ms, i)
  {
    seq(|defs|, i requires 0 <= i < |defs| => [DefineChannel(defs[i])] + ShareCalls(defs, clock, ms, i))
  }

  lemma RoutingsStart(defs: seq<ChannelDef>, clock: nat -> bool)
    ensures Routings(defs, clock, []) == Openings(defs)
  {
    forall i | 0 <= i < |defs|
      ensures Routings(defs, clock, [])[i] == Openings(defs)[i]
    {
      assert [DefineChannel(defs[i])] + [] == [DefineChannel(defs[i])];
    }
  }

  lemma ShareSnoc(defs: seq<ChannelDef>, clock: nat -> bool, ms: seq<Msg>, m: Msg, i: nat)
    ensures Share(defs, ms + [m], i) == Share(defs, ms, i) + if IndexOf(defs, m.ch) == i then [Msg(0, m.ts, m.data)] else []
    ensures ShareCalls(defs, clock, ms + [m], i) ==
            ShareCalls(defs, clock, ms, i)
            + if IndexOf(defs, m.ch) == i then [WriteMessage(Msg(0, m.ts, m.data), clock(|ms|))] else []
  {
    hide IndexOf;
    assert (ms + [m])[..|ms|] == ms;
  }

  lemma RoutingsSnoc(defs: seq<ChannelDef>, clock: nat -> bool, ms: seq<Msg>, m: Msg)
    ensures var k, calls, calls' := IndexOf(defs, m.ch), Routings(defs, clock, ms), Routings(defs, clock, ms + [m]);
            calls' == if k < |defs| then calls[k := calls[k] + [WriteMessage(Msg(0, m.ts, m.data), clock(|ms|))]] else calls
  {
    hide *;
    var k, calls, calls' := IndexOf(defs, m.ch), Routings(defs, clock, ms), Routings(defs, clock, ms + [m]);
    var call := WriteMessage(Msg(0, m.ts, m.data), clock(|ms|));
    forall i | 0 <= i < |defs|
      ensures calls'[i] == if i == k then calls[i] + [call] else calls[i]
    {
      RoutingsAt(defs, clock, ms, m, i);
    }
    OneChanged(calls, calls', k, if k < |calls| then calls[k] + [call] else []);
  }

  lemma OneChanged<T>(a: seq<T>, b: seq<T>, k: nat, x: T)
    requires |a| == |b| && forall i :: 0 <= i < |a| ==> b[i] == if i == k then x else a[i]
    ensures b == if k < |a| then a[k := x] else a
  {
  }

  lemma RoutingsAt(defs: seq<ChannelDef>, clock: nat -> bool, ms: seq<Msg>, m: Msg, i: nat)
    requires i < |defs|
    ensures var calls, calls' := Routings(defs, clock, ms), Routings(defs, clock, ms + [m]);
            calls'[i] == if IndexOf(defs, m.ch) == i then calls[i] + [WriteMessage(Msg(0, m.ts, m.data), clock(|ms|))] else calls[i]
  {
    hide IndexOf, ShareCalls, Share;
    ShareSnoc(defs, clock, ms, m, i);
    var share := ShareCalls(defs, clock, ms, i);
    assert share + [] == share;
    Seqs.Regroup([DefineChannel(defs[i])], share, [WriteMessage(Msg(0, m.ts, m.data), clock(|ms|))]);
  }

  /** What each output has accepted. */
  ghost predicate Shared(outs: seq<Recorder>, defs: seq<ChannelDef>, ms: seq<Msg>)
    reads set i | 0 <= i < |outs| :: outs[i]
  {
    forall i :: 0 <= i < |outs| ==> outs[i].Accepted == Share(defs, ms, i)
  }

  /** Routes one message to the output of its channel, if there is one. */
  method RouteOne(outs: seq<Recorder>, defs: seq<ChannelDef>, m: Msg, timeUp: bool, ghost envs: nat -> Config, ghost maxBytes: nat,
                  ghost clock: nat -> bool, ghost passed: seq<Msg>, ghost feet: seq<set<object>>)
      returns (ghost feet': seq<set<object>>)
    requires AllHeld(outs, Routings(defs, clock, passed), feet) && OutsFor(outs, defs, envs, maxBytes) && Shared(outs, defs, passed)
    requires timeUp == clock(|passed|)
    requires forall i :: 0 <= i < |outs| && IndexOf(defs, m.ch) == i ==> Allowed(outs[i].L, WriteMessage(Msg(0, m.ts, m.data), timeUp))
    modifies Union(feet)
    ensures AllHeld(outs, Routings(defs, clock, passed + [m]), feet') && OutsFor(outs, defs, envs, maxBytes)
    ensures Shared(outs, defs, passed + [m])
    ensures forall o :: o in Union(feet') ==> o in Union(feet) || fresh(o)
  {
    hide AllHeld, Routings, After, Taken, Shaped, Allowed, Share, ShareCalls, Held, Driven;
    RoutingsSnoc(defs, clock, passed, m);
    forall i: nat
      ensures Share(defs, passed + [m], i) == Share(defs, passed, i) + if IndexOf(defs, m.ch) == i then [Msg(0, m.ts, m.data)] else []
      ensures Share(defs, passed, i) + [] == Share(defs, passed, i)
    {
      ShareSnoc(defs, clock, passed, m, i);
    }
    var k := FindId(defs, m.ch);
    feet' := feet;
    if k < |defs| {
      var call := WriteMessage(Msg(0, m.ts, m.data), timeUp);
      ghost var L := outs[k].L;
      feet' := StepAmong(outs, k, call, Routings(defs, clock, passed), feet);
      WriteKeepsChannels(outs[k].Cfg, L, call.m, timeUp);
    }
    assert forall i :: 0 <= i < |outs| ==> outs[i].Accepted == Share(defs, passed + [m], i);
  }

  lemma PassedStep(progress: nat -> bool, done: nat, passed: seq<Msg>, m: Msg, rest: seq<Msg>)
    ensures passed + Passed(progress, done, [m] + rest) ==
            (passed + [m]) + if progress(done + |m.data|) then Passed(progress, done + |m.data|, rest) else []
  {
    assert ([m] + rest)[1..] == rest;
    Seqs.Regroup(passed, [m], Passed(progress, done + |m.data|, rest));
  }

  /** Each output's recorder takes its calls. */
  ghost predicate AllPermitted(envs: nat -> Config, maxBytes: nat, calls: seq<seq<Call>>) {
    forall i :: 0 <= i < |calls| ==> Permitted(OutputConfig(envs(i), maxBytes), calls[i])
  }

  lemma {:induction false} ShareGrows(defs: seq<ChannelDef>, clock: nat -> bool, ms: seq<Msg>, more: seq<Msg>, i: nat)
    ensures ShareCalls(defs, clock, ms, i) <= ShareCalls(defs, clock, ms + more, i)
    decreases |more|
  {
    hide IndexOf;
    if more == [] {
      assert ms + more == ms;
    } else {
      var n := |more| - 1;
      assert ms + more == (ms + more[..n]) + [more[n]];
      ShareGrows(defs, clock, ms, more[..n], i);
      ShareSnoc(defs, clock, ms + more[..n], more[n], i);
    }
  }

  lemma Around<T>(first: seq<T>, before: seq<T>, x: T, whole: seq<T>)
    requires before + [x] <= whole
    ensures first + whole == ((first + before) + [x]) + whole[|before| + 1..]
  {
  }

  /** Of calls that may be made, each may be made after those before it. */
  lemma NextAllowed(c: Config, before: seq<Call>, call: Call, rest: seq<Call>)
    requires Permitted(c, (before + [call]) + rest)
    ensures |c.sessionId| == 16 && Shaped(c, Opened(c)) && Allowed(Run(c, Opened(c), before), call)
  {
    hide Opened, Allowed, Shaped, After;
    OpenedIsShaped(c);
    RunJoins(c, Opened(c), before + [call], rest);
    RunSnoc(c, Opened(c), before, call);
  }

  /** An output takes the next message of a stream it takes as a whole. */
  lemma NextRouted(c: Config, defs: seq<ChannelDef>, clock: nat -> bool, passed: seq<Msg>, m: Msg, all: seq<Msg>, i: nat)
    requires passed + [m] <= all && i < |defs| && IndexOf(defs, m.ch) == i
    requires Permitted(c, Routings(defs, clock, all)[i])
    ensures |c.sessionId| == 16 && Shaped(c, Opened(c))
    ensures Allowed(Run(c, Opened(c), Routings(defs, clock, passed)[i]), WriteMessage(Msg(0, m.ts, m.data), clock(|passed|)))
  {
    hide *;
    var first, call := [DefineChannel(defs[i])], WriteMessage(Msg(0, m.ts, m.data), clock(|passed|));
    var before, whole := ShareCalls(defs, clock, passed, i), ShareCalls(defs, clock, all, i);
    ShareSnoc(defs, clock, passed, m, i);
    Seqs.BehindPrefix(passed, m, all);
    Seqs.Regroup(passed, [m], all[|passed| + 1..]);
    ShareGrows(defs, clock, passed + [m], all[|passed| + 1..], i);
    Around(first, before, call, whole);
    NextAllowed(c, first + before, call, whole[|before| + 1..]);
  }

  lemma AtRoutings(outs: seq<Recorder>, calls: seq<seq<Call>>, feet: seq<set<object>>, i: nat)
    requires AllHeld(outs, calls, feet) && i < |outs|
    ensures |outs[i].Cfg.sessionId| == 16 && Shaped(outs[i].Cfg, Opened(outs[i].Cfg)) && outs[i].L == Run(outs[i].Cfg, Opened(outs[i].Cfg), calls[i])
  {
    hide Held, Driven, Opened, Footprint;
    HeldFacts(outs[i], calls[i], feet[i]);
    AtRun(outs[i], calls[i]);
  }

  /** Reads the source to its end, or until cancelled, and routes every message. */
  method RouteAll(src: Reader, outs: seq<Recorder>, defs: seq<ChannelDef>, progress: nat -> bool, clock: nat -> bool,
                  ghost envs: nat -> Config, ghost maxBytes: nat, ghost feet: seq<set<object>>)
      returns (ghost feet': seq<set<object>>)
    requires src.Valid() && src !in Union(feet)
    requires AllPermitted(envs, maxBytes, Routings(defs, clock, Passed(progress, 0, src.Remaining())))
    requires AllHeld(outs, Openings(defs), feet) && OutsFor(outs, defs, envs, maxBytes)
    requires forall i :: 0 <= i < |outs| ==> outs[i].Accepted == []
    modifies src, Union(feet)
    ensures AllHeld(outs, Routings(defs, clock, Passed(progress, 0, old(src.Remaining()))), feet')
    ensures OutsFor(outs, defs, envs, maxBytes) && Shared(outs, defs, Passed(progress, 0, old(src.Remaining())))
    ensures forall o :: o in Union(feet') ==> o in Union(feet) || fresh(o)
  {
    hide AllHeld, Routings, AllPermitted, Share, Shared, OutsFor, Held, Driven, Reader.Valid, Reader.Remaining, Passed, Openings, IndexOf, Allowed;
    feet' := feet;
    RoutingsStart(defs, clock);
    ghost var stream, passed: seq<Msg> := src.Remaining(), [];
    assert [] + Passed(progress, 0, stream) == Passed(progress, 0, stream);
    var bytesProcessed: nat, n: nat := 0, 0;
    NothingShared(outs, defs);
    var more := true;
    while more
      invariant src.Valid() && src !in Union(feet') && n == |passed|
      invariant AllHeld(outs, Routings(defs, clock, passed), feet') && OutsFor(outs, defs, envs, maxBytes) && Shared(outs, defs, passed)
      invariant forall o :: o in Union(feet') ==> o in Union(feet) || fresh(o)
      invariant more ==> passed + Passed(progress, bytesProcessed, src.Remaining()) == Passed(progress, 0, stream)
      invariant !more ==> passed == Passed(progress, 0, stream)
      decreases more, |src.Remaining()|
    {
      var msg := src.NextMessage();
      if msg.None? {
        NothingPasses(progress, bytesProcessed);
        assert passed + [] == passed;
        more := false;
      } else {
        PassedStep(progress, bytesProcessed, passed, msg.value, src.Remaining());
        NextFor(outs, defs, envs, maxBytes, clock, passed, msg.value, Passed(progress, 0, stream), feet');
        feet' := RouteOne(outs, defs, msg.value, clock(n), envs, maxBytes, clock, passed, feet');
        passed := passed + [msg.value];
        n := n + 1;
        bytesProcessed := bytesProcessed + |msg.value.data|;
        if !progress(bytesProcessed) {
          assert passed + [] == passed;
          more := false;
        }
      }
    }
  }

  lemma NextFor(outs: seq<Recorder>, defs: seq<ChannelDef>, envs: nat -> Config, maxBytes: nat, clock: nat -> bool,
                passed: seq<Msg>, m: Msg, all: seq<Msg>, feet: seq<set<object>>)
    requires AllHeld(outs, Routings(defs, clock, passed), feet) && OutsFor(outs, defs, envs, maxBytes)
    requires passed + [m] <= all && AllPermitted(envs, maxBytes, Routings(defs, clock, all))
    ensures forall i :: 0 <= i < |outs| && IndexOf(defs, m.ch) == i ==> Allowed(outs[i].L, WriteMessage(Msg(0, m.ts, m.data), clock(|passed|)))
  {
    hide AllHeld, Routings, IndexOf, Allowed, Opened, Permitted;
    var i := IndexOf(defs, m.ch);
    if i < |outs| {
      AtRoutings(outs, Routings(defs, clock, passed), feet, i);
      NextRouted(outs[i].Cfg, defs, clock, passed, m, all, i);
    }
  }

  lemma NothingPasses(progress: nat -> bool, done: nat)
    ensures Passed(progress, done, []) == []
  {
  }

  lemma NothingShared(outs: seq<Recorder>, defs: seq<ChannelDef>)
    requires forall i :: 0 <= i < |outs| ==> outs[i].Accepted == []
    ensures Shared(outs, defs, [])
  {
  }

  // ----- annotations -----

  /** Some outputs have been told one annotation more than the others. */
  function Told(calls: seq<seq<Call>>, notes: seq<Note>, n: nat, j: nat): (r: seq<seq<Call>>)
    requires n <= |notes| && (n == |notes| ==> j == 0)
    ensures |r| == |calls|
    ensures forall i :: 0 <= i < |calls| ==> r[i] == calls[i] + NoteCalls(if i < j then notes[..n + 1] else notes[..n])
  {
    seq(|calls|, i requires 0 <= i < |calls| => calls[i] + NoteCalls(if i < j then notes[..n + 1] else notes[..n]))
  }

  lemma ToldStep(calls: seq<seq<Call>>, notes: seq<Note>, n: nat, j: nat)
    requires n < |notes| && j < |calls|
    ensures var before := Told(calls, notes, n, j);
            Told(calls, notes, n, j + 1) == before[j := before[j] + [AddAnnotation(notes[n].ts, notes[n].text, notes[n].metadata)]]
  {
    assert notes[..n + 1][..n] == notes[..n];
    Seqs.Regroup(calls[j], NoteCalls(notes[..n]), [AddAnnotation(notes[n].ts, notes[n].text, notes[n].metadata)]);
  }

  lemma ToldAll(calls: seq<seq<Call>>, notes: seq<Note>, n: nat)
    requires n < |notes|
    ensures Told(calls, notes, n, |calls|) == Told(calls, notes, n + 1, 0)
  {
  }

  /** Gives every annotation to every output. */
  method AnnotateOuts(outs: seq<Recorder>, notes: seq<Note>, ghost calls: seq<seq<Call>>, ghost feet: seq<set<object>>)
      returns (ghost feet': seq<set<object>>)
    requires AllHeld(outs, calls, feet) && |outs| == |calls| && forall i :: 0 <= i < |notes| ==> NoteFits(notes[i])
    modifies Union(feet)
    ensures AllHeld(outs, Told(calls, notes, |notes|, 0), feet')
    ensures forall i :: 0 <= i < |outs| ==> outs[i].Accepted == old(outs[i].Accepted) && outs[i].L.channels == old(outs[i].L.channels)
    ensures forall o :: o in Union(feet') ==> o in Union(feet) || fresh(o)
  {
    hide AllHeld, Told, Held, Driven, After, Taken, Shaped, StoredAnnotation;
    feet' := feet;
    NothingTold(calls, notes);
    for n := 0 to |notes|
      invariant AllHeld(outs, Told(calls, notes, n, 0), feet')
      invariant forall i :: 0 <= i < |outs| ==> outs[i].Accepted == old(outs[i].Accepted) && outs[i].L.channels == old(outs[i].L.channels)
      invariant forall o :: o in Union(feet') ==> o in Union(feet) || fresh(o)
    {
      for j := 0 to |outs|
        invariant AllHeld(outs, Told(calls, notes, n, j), feet')
        invariant forall i :: 0 <= i < |outs| ==> outs[i].Accepted == old(outs[i].Accepted) && outs[i].L.channels == old(outs[i].L.channels)
        invariant forall o :: o in Union(feet') ==> o in Union(feet) || fresh(o)
      {
        var call := AddAnnotation(notes[n].ts, notes[n].text, notes[n].metadata);
        assert NoteFits(notes[n]);
        ToldStep(calls, notes, n, j);
        ghost var L := outs[j].L;
        feet' := StepAmong(outs, j, call, Told(calls, notes, n, j), feet');
        AnnotateKeepsChannels(outs[j].Cfg, L, call);
      }
      ToldAll(calls, notes, n);
    }
  }

  lemma AnnotateKeepsChannels(c: Config, L: Log, call: Call)
    requires Shaped(c, L) && call.AddAnnotation?
    ensures After(c, L, call).channels == L.channels && Taken(L, call) == []
  {
    hide FlushAll;
  }

  lemma NothingTold(calls: seq<seq<Call>>, notes: seq<Note>)
    ensures Told(calls, notes, 0, 0) == calls
  {
    forall i | 0 <= i < |calls|
      ensures Told(calls, notes, 0, 0)[i] == calls[i]
    {
      assert notes[..0] == [] && calls[i] + [] == calls[i];
    }
  }

  // ----- closing the outputs -----

  datatype SplitOutput = SplitOutput(files: seq<bytes>, infos: seq<SegmentInfo>, messageCount: nat)

  /** The session one output closes. */
  function OutputOf(c: Config, calls: seq<Call>, messageCount: nat): SplitOutput
    requires |c.sessionId| == 16
  {
    SplitOutput(SessionFiles(c, calls), Writer.Infos(c, Closing(c, Run(c, Opened(c), calls))), messageCount)
  }

  lemma CountedOn(w: Recorder)
    requires w.Valid() && |w.L.channels| == 1
    ensures |w.MsgWritten| == 1 && w.MsgWritten[0] == |Only(w.Accepted, 0)|
  {
  }

  method FinishOne(w: Recorder, ghost made: seq<Call>, ghost foot: set<object>) returns (out: SplitOutput)
    requires Held(w, made, foot) && |w.L.channels| == 1
    modifies foot
    ensures |w.Cfg.sessionId| == 16 && out == OutputOf(w.Cfg, made, |Only(old(w.Accepted), 0)|)
  {
    hide Held, Driven, Footprint, Writer.RecorderSession.Valid, AllAllowed, Runs.Accepted, Closing, SessionFiles;
    HeldFacts(w, made, foot);
    DrivenFacts(w, made);
    CountedOn(w);
    WhatWasDone(w, made);
    var messageCount := w.MsgWritten[0];
    var files, infos := Finish(w, made);
    out := SplitOutput(files, infos, messageCount);
  }

  /** Closes every output. */
  method FinishOuts(outs: seq<Recorder>, ghost calls: seq<seq<Call>>, ghost feet: seq<set<object>>) returns (outputs: seq<SplitOutput>)
    requires AllHeld(outs, calls, feet)
    requires forall i :: 0 <= i < |outs| ==> |outs[i].L.channels| == 1
    modifies Union(feet)
    ensures |outputs| == |outs| == |calls|
    ensures forall i :: 0 <= i < |outs| ==>
              |outs[i].Cfg.sessionId| == 16 && outputs[i] == OutputOf(outs[i].Cfg, calls[i], |Only(old(outs[i].Accepted), 0)|)
  {
    hide Held, Closing, SessionFiles, OutputOf, Only;
    outputs := [];
    for i := 0 to |outs|
      invariant |outputs| == i
      invariant forall k :: 0 <= k < i ==>
                  |outs[k].Cfg.sessionId| == 16 && outputs[k] == OutputOf(outs[k].Cfg, calls[k], |Only(old(outs[k].Accepted), 0)|)
      invariant forall k :: i <= k < |outs| ==>
                  Held(outs[k], calls[k], feet[k]) && outs[k].Accepted == old(outs[k].Accepted) && outs[k].L == old(outs[k].L)
    {
      forall k | i < k < |outs|
        ensures outs[k] in feet[k] && feet[i] !! feet[k]
      {
        HeldFacts(outs[k], calls[k], feet[k]);
      }
      label before:
      var out := FinishOne(outs[i], calls[i], feet[i]);
      forall k | i < k < |outs|
        ensures Held(outs[k], calls[k], feet[k])
      {
        assert old@before(Held(outs[k], calls[k], feet[k]));
      }
      outputs := outputs + [out];
    }
  }

  // ----- the whole split -----

  function SegmentLimit(input: Input, opts: SplitOptions): nat {
    if opts.maxSegmentBytes > 0 then opts.maxSegmentBytes
    else if input.sources == [] then DEFAULT_MAX_SEGMENT_BYTES
    else input.sources[0].info.size
  }

  function SplitDefs(input: Input, opts: SplitOptions): seq<ChannelDef> { Extracted(ChannelsOf(input), opts.channelIds) }

  /** What each output is told: its channel, its share of the stream, and the annotations. */
  function SplitCalls(lib: Library, input: Input, opts: SplitOptions, progress: nat -> bool, clock: nat -> bool): (r: seq<seq<Call>>)
    ensures |r| == |SplitDefs(input, opts)|
  {
    var calls := Routings(SplitDefs(input, opts), clock, Passed(progress, 0, StreamOf(lib, input)));
    if opts.includeAnnotations then Told(calls, NotesOf(input), |NotesOf(input)|, 0) else calls
  }

  function SplitStatus(input: Input, opts: SplitOptions): Status {
    if OpenStatus(input.sources) != Ok then OpenStatus(input.sources)
    else if SplitDefs(input, opts) == [] then ErrorNotFound
    else if exists i :: 0 <= i < |SplitDefs(input, opts)| && SplitDefs(input, opts)[i].name == [] then ErrorInvalidArg
    else Ok
  }

  /** When a split succeeds, and why it fails. */
  lemma SplitSucceeds(input: Input, opts: SplitOptions)
    ensures OpenStatus(input.sources) != Ok ==> SplitStatus(input, opts) == OpenStatus(input.sources)
    ensures OpenStatus(input.sources) == Ok ==>
              (SplitStatus(input, opts) == ErrorNotFound <==>
                 if opts.channelIds == [] then ChannelsOf(input) == [] else forall p, d :: 0 <= p < |opts.channelIds| && d in ChannelsOf(input) ==> d.id != opts.channelIds[p])
    ensures OpenStatus(input.sources) == Ok ==>
              (SplitStatus(input, opts) == Ok <==>
                 SplitDefs(input, opts) != [] && forall i :: 0 <= i < |SplitDefs(input, opts)| ==> SplitDefs(input, opts)[i].name != [])
  {
    hide OpenStatus, ChannelsOf, Extracted;
    var channels, ids := ChannelsOf(input), opts.channelIds;
    var from := ExtractedAreGranted(channels, ids);
    if ids != [] && Extracted(channels, ids) != [] {
      assert Answers(channels, ids[from[0]], Extracted(channels, ids)[0]);
    }
  }

  /** Everything the outputs are told fits its fields. */
  ghost predicate Splittable(lib: Library, input: Input, opts: SplitOptions, envs: nat -> Config, progress: nat -> bool, clock: nat -> bool) {
    AllPermitted(envs, SegmentLimit(input, opts), SplitCalls(lib, input, opts, progress, clock))
  }

  /** The messages alone may be written when all calls of a split may be made, and the definitions fit their records. */
  lemma RoutingsPermitted(lib: Library, input: Input, opts: SplitOptions, envs: nat -> Config, progress: nat -> bool, clock: nat -> bool)
    requires Splittable(lib, input, opts, envs, progress, clock)
    ensures AllPermitted(envs, SegmentLimit(input, opts), Routings(SplitDefs(input, opts), clock, Passed(progress, 0, StreamOf(lib, input))))
    ensures DefsFit(SplitDefs(input, opts))
  {
    hide Opened, Shaped, StreamOf, NotesOf, ChannelsOf, Extracted, Passed, ShareCalls, NoteCalls, SegmentLimit, StoredDef;
    var defs, calls := SplitDefs(input, opts), Routings(SplitDefs(input, opts), clock, Passed(progress, 0, StreamOf(lib, input)));
    forall i | 0 <= i < |defs|
      ensures Permitted(OutputConfig(envs(i), SegmentLimit(input, opts)), calls[i])
      ensures defs[i].compression <= CODEC_ZSTD && |StoredDef(defs[i])| < 0x1_0000_0000
    {
      var c := OutputConfig(envs(i), SegmentLimit(input, opts));
      var notes := NotesOf(input);
      assert Permitted(c, SplitCalls(lib, input, opts, progress, clock)[i]);
      OpenedIsShaped(c);
      if opts.includeAnnotations {
        RunJoins(c, Opened(c), calls[i], NoteCalls(notes[..|notes|]));
      }
      assert calls[i][0] == DefineChannel(defs[i]);
    }
  }

  lemma InputNotesFit(input: Input)
    ensures forall i :: 0 <= i < |NotesOf(input)| ==> NoteFits(NotesOf(input)[i])
  {
    hide NoteFits, Notes, SessionRecords;
    SessionIsFramed(FileList(input.sources));
    ReadNotesFit(InputRecords(input));
  }

  /** Output i is the session of the i-th channel's calls, with the number of messages it received. */
  ghost predicate SplitInto(outputs: seq<SplitOutput>, lib: Library, input: Input, opts: SplitOptions, envs: nat -> Config, maxBytes: nat,
                            progress: nat -> bool, clock: nat -> bool) {
    var defs := SplitDefs(input, opts);
    && |outputs| == |defs|
    && forall i :: 0 <= i < |defs| ==>
         var c := OutputConfig(envs(i), maxBytes);
         |c.sessionId| == 16
         && outputs[i] == OutputOf(c, SplitCalls(lib, input, opts, progress, clock)[i],
                                   |Only(Share(defs, Passed(progress, 0, StreamOf(lib, input)), i), 0)|)
  }

  /** The outputs are opened: routes the stream, adds the annotations, and closes them. */
  method FillOuts(src: Reader, outs: seq<Recorder>, defs: seq<ChannelDef>, opts: SplitOptions, progress: nat -> bool, clock: nat -> bool,
                  ghost lib: Library, ghost input: Input, ghost envs: nat -> Config, ghost maxBytes: nat, ghost feet: seq<set<object>>)
      returns (outputs: seq<SplitOutput>)
    requires Reads(lib, src, input) && src !in Union(feet) && defs == SplitDefs(input, opts)
    requires AllPermitted(envs, maxBytes, Routings(defs, clock, Passed(progress, 0, StreamOf(lib, input))))
    requires AllHeld(outs, Openings(defs), feet) && OutsFor(outs, defs, envs, maxBytes)
    requires forall i :: 0 <= i < |outs| ==> outs[i].Accepted == []
    modifies src, Union(feet)
    ensures SplitInto(outputs, lib, input, opts, envs, maxBytes, progress, clock)
  {
    hide AllHeld, Held, Reader.Valid, Reader.Remaining, AllPermitted, StreamOf, NotesOf, ChannelsOf, Passed, Routings, Told, Openings,
      Share, NoteFits, OutputOf, Only, Picked;
    ghost var stream := StreamOf(lib, input);
    var notes := src.Annots;
    ghost var feet1 := RouteAll(src, outs, defs, progress, clock, envs, maxBytes, feet);
    ghost var calls := Routings(defs, clock, Passed(progress, 0, stream));
    if opts.includeAnnotations {
      InputNotesFit(input);
      feet1 := AnnotateOuts(outs, notes, calls, feet1);
      calls := Told(calls, notes, |notes|, 0);
    }
    outputs := FinishOuts(outs, calls, feet1);
  }

  /**
   * Splits a session by channel. On success output i is the session of exactly these calls: its
   * channel, every message of the source that is routed to it, in order, and the annotations.
   */
  method Split(lib: Library, input: Input, opts: SplitOptions, envs: nat -> Config, progress: nat -> bool, clock: nat -> bool)
      returns (st: Status, outputs: seq<SplitOutput>)
    requires Standard(lib) && Splittable(lib, input, opts, envs, progress, clock)
    requires forall i: nat :: Usable(OutputConfig(envs(i), SegmentLimit(input, opts)))
    ensures st == SplitStatus(input, opts)
    ensures st == Ok ==> SplitInto(outputs, lib, input, opts, envs, SegmentLimit(input, opts), progress, clock)
    ensures st == Ok ==>
              if opts.channelIds == [] then SplitDefs(input, opts) == ChannelsOf(input)
              else exists from :: Granted(ChannelsOf(input), opts.channelIds, SplitDefs(input, opts), from)
  {
    hide AllHeld, Held, Reads, Usable, Standard, Splittable, AllPermitted, DefsFit, Routings, SplitCalls, OutputOf, Only, Share, Passed,
      StreamOf, Extracted, ChannelsOf, OpenStatus, Openings, Granted;
    outputs := [];
    var src;
    st, src := OpenInput(lib, input);
    if src == null {
      return;
    }
    SourceSays(lib, src, input);
    var defs := Extract(src.Channels, opts.channelIds);
    if |defs| == 0 {
      return ErrorNotFound, outputs;
    }
    var maxBytes := if opts.maxSegmentBytes > 0 then opts.maxSegmentBytes
      else if |input.sources| == 0 then DEFAULT_MAX_SEGMENT_BYTES else input.sources[0].info.size;
    RoutingsPermitted(lib, input, opts, envs, progress, clock);
    var outs;
    ghost var calls, feet;
    st, outs, calls, feet := OpenOuts(defs, envs, maxBytes);
    if st != Ok {
      return;
    }
    outputs := FillOuts(src, outs, defs, opts, progress, clock, lib, input, envs, maxBytes, feet);
  }

  lemma SourceSays(lib: Library, src: Reader, input: Input)
    requires Reads(lib, src, input)
    ensures src.Channels == ChannelsOf(input)
  {
  }

  /** Inputs whose largest chunk and payload together fit a record can always be split. */
  lemma SmallInputSplits(lib: Library, input: Input, opts: SplitOptions, envs: nat -> Config, progress: nat -> bool, clock: nat -> bool, chunkSize: nat)
    requires forall i: nat :: Usable(OutputConfig(envs(i), SegmentLimit(input, opts)))
    requires Bounded(ChannelsOf(input), chunkSize)
    requires forall m :: m in StreamOf(lib, input) ==> chunkSize + 12 + |m.data| < CHUNK_LIMIT
    ensures Splittable(lib, input, opts, envs, progress, clock)
  {
    hide Usable, StreamOf, NotesOf, ChannelsOf, Extracted, Passed, ShareCalls, NoteCalls, SegmentLimit, Bounded, Small, Opened, Invariant,
      Shaped, NoteFits;
    var defs, passed, notes := SplitDefs(input, opts), Passed(progress, 0, StreamOf(lib, input)), NotesOf(input);
    PickedIsBounded(ChannelsOf(input), opts.channelIds, chunkSize);
    ExtractedIs(ChannelsOf(input), opts.channelIds);
    PassedFrom(progress, 0, StreamOf(lib, input));
    InputNotesFit(input);
    NotesAreSmall(notes, chunkSize);
    forall i | 0 <= i < |defs|
      ensures Permitted(OutputConfig(envs(i), SegmentLimit(input, opts)), SplitCalls(lib, input, opts, progress, clock)[i])
    {
      var c := OutputConfig(envs(i), SegmentLimit(input, opts));
      OneDefineIsSmall(defs, i, chunkSize);
      SharesAreSmall(defs, clock, passed, i, chunkSize);
      assert notes[..|notes|] == notes;
      SmallStart(c, chunkSize);
      SmallRunIsAllowed(c, Opened(c), SplitCalls(lib, input, opts, progress, clock)[i], chunkSize);
    }
  }

  lemma ExtractedIs(channels: seq<ChannelDef>, ids: seq<u16>)
    ensures Extracted(channels, ids) == if ids == [] then channels else Picked(channels, ids)
  {
  }

  lemma {:induction false} PickedIsBounded(channels: seq<ChannelDef>, ids: seq<u16>, chunkSize: nat)
    requires Bounded(channels, chunkSize)
    ensures Bounded(Picked(channels, ids), chunkSize)
    decreases |ids|
  {
    hide StoredDef, IndexOf;
    if ids != [] {
      PickedIsBounded(channels, ids[..|ids| - 1], chunkSize);
    }
  }

  lemma {:induction false} PassedFrom(progress: nat -> bool, done: nat, ms: seq<Msg>)
    ensures forall m :: m in Passed(progress, done, ms) ==> m in ms
    decreases |ms|
  {
    if ms != [] {
      PassedFrom(progress, done + |ms[0].data|, ms[1..]);
    }
  }

  lemma OneDefineIsSmall(defs: seq<ChannelDef>, i: nat, chunkSize: nat)
    requires Bounded(defs, chunkSize) && i < |defs|
    ensures Small(DefineChannel(defs[i]), chunkSize)
  {
    hide StoredDef;
  }

  lemma {:induction false} SharesAreSmall(defs: seq<ChannelDef>, clock: nat -> bool, ms: seq<Msg>, i: nat, chunkSize: nat)
    requires forall m :: m in ms ==> chunkSize + 12 + |m.data| < CHUNK_LIMIT
    ensures AllSmall(ShareCalls(defs, clock, ms, i), chunkSize)
    decreases |ms|
  {
    hide IndexOf;
    if ms != [] {
      SharesAreSmall(defs, clock, ms[..|ms| - 1], i, chunkSize);
    }
  }
}
