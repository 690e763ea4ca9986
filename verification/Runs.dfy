/** Whole sessions: any sequence of public calls between Open and Close. */
module Runs {
  import opened Bytes
  import opened Routines
  import opened Stream
  import opened Recording
  import opened Conservation
  import Seqs

  datatype Call =
    | DefineChannel(config: ChannelDef)
    | WriteMessage(m: Msg, timeUp: bool)
    | AddAnnotation(ts: u64, text: bytes, metadata: bytes)
    | FlushBuffers
    | RotateNow

  predicate Shaped(c: Config, L: Log) { |c.sessionId| == 16 && |L.pending| == |L.channels| <= 0xFFFE }

  /** What a call may be made with: lengths that fit their fields. */
  ghost predicate Allowed(L: Log, call: Call) {
    match call
    case DefineChannel(d) => d.compression <= CODEC_ZSTD && |StoredDef(d)| < 0x1_0000_0000
    case WriteMessage(m, _) => m.ch < |L.channels| ==> Fits(L, m)
    case AddAnnotation(_, text, metadata) => |StoredAnnotation(text, metadata)| < 0x1_0000_0000
    case _ => true
  }

  predicate Named(channels: seq<ChannelDef>, name: bytes) {
    exists i :: 0 <= i < |channels| && channels[i].name == name
  }

  /** The recording after a call; a call that returns an error leaves it as it was. */
  function After(c: Config, L: Log, call: Call): (r: Log)
    requires Shaped(c, L)
    ensures Shaped(c, r) && L.channels <= r.channels
  {
    match call
    case DefineChannel(d) =>
      if d.name == [] || Named(L.channels, d.name) || |L.channels| >= 0xFFFE then L
      else Define(c, L, d.(id := |L.channels|))
    case WriteMessage(m, timeUp) => if m.ch < |L.channels| then Write(c, L, m, timeUp) else L
    case AddAnnotation(ts, text, metadata) => if |text| > 0xFFFF then L else Annotate(c, L, ts, text, metadata)
    case FlushBuffers => FlushAll(c, L)
    case RotateNow => if c.singleFile then L else RotateSegment(c, L)
  }

  /** The message a call gets accepted, if any. */
  function Taken(L: Log, call: Call): seq<Msg> {
    if call.WriteMessage? && call.m.ch < |L.channels| then [call.m] else []
  }

  function Run(c: Config, L: Log, calls: seq<Call>): (r: Log)
    requires Shaped(c, L)
    ensures Shaped(c, r)
    decreases |calls|
  {
    if calls == [] then L else Run(c, After(c, L, calls[0]), calls[1..])
  }

  /** The messages whose Write returned Ok, in call order. */
  function Accepted(c: Config, L: Log, calls: seq<Call>): seq<Msg>
    requires Shaped(c, L)
    decreases |calls|
  {
    if calls == [] then [] else Taken(L, calls[0]) + Accepted(c, After(c, L, calls[0]), calls[1..])
  }

  ghost predicate AllAllowed(c: Config, L: Log, calls: seq<Call>)
    requires Shaped(c, L)
    decreases |calls|
  {
    calls == [] || (Allowed(L, calls[0]) && AllAllowed(c, After(c, L, calls[0]), calls[1..]))
  }

  /** The calls may be made, in this order, on a session just opened. */
  ghost predicate Permitted(c: Config, calls: seq<Call>) {
    |c.sessionId| == 16 && (OpenedIsShaped(c); AllAllowed(c, Opened(c), calls))
  }

  lemma OpenedIsShaped(c: Config)
    requires |c.sessionId| == 16
    ensures Shaped(c, Opened(c))
  {
  }

  // ----- every call keeps every accepted message -----

  /** Nothing is lost, duplicated or reordered within a channel. */
  ghost predicate Adds(L: Log, L': Log, ms: seq<Msg>) {
    && Weight(L') == Weight(L) + |ms|
    && forall k: u16 :: Held(L', k) == Held(L, k) + Only(ms, k)
  }

  lemma CallKeeps(c: Config, L: Log, call: Call)
    requires Invariant(c, L) && Shaped(c, L) && Allowed(L, call)
    ensures Invariant(c, After(c, L, call)) && Adds(L, After(c, L, call), Taken(L, call))
  {
    hide Good, Settled, Held, Weight, Fits, StoredDef, StoredAnnotation, Write, Annotate, FlushAll, RotateSegment, Define;
    match call
    case DefineChannel(d) =>
      if !(d.name == [] || Named(L.channels, d.name) || |L.channels| >= 0xFFFE) {
        NumberedIsSound(d, |L.channels|);
        DefineKeeps(c, L, d.(id := |L.channels|));
      }
    case WriteMessage(m, timeUp) =>
      if m.ch < |L.channels| {
        WriteGains(c, L, m, timeUp);
        OnlyOne(m);
      }
    case AddAnnotation(ts, text, metadata) => AnnotateKeeps(c, L, ts, text, metadata);
    case FlushBuffers => FlushAllSettles(c, L);
    case RotateNow => RotateSettles(c, L);
  }

  lemma NumberedIsSound(d: ChannelDef, n: u16)
    requires d.compression <= CODEC_ZSTD && |StoredDef(d)| < 0x1_0000_0000
    ensures SoundChannel(d.(id := n), n)
  {
  }

  lemma OnlyOne(m: Msg)
    ensures forall k: u16 :: Only([m], k) == if m.ch == k then [m] else []
  {
    assert [m][1..] == [];
  }

  /** Conservation over every run of public calls from every state between calls. */
  lemma {:induction false} RunKeeps(c: Config, L: Log, calls: seq<Call>)
    requires Invariant(c, L) && Shaped(c, L) && AllAllowed(c, L, calls)
    ensures Invariant(c, Run(c, L, calls)) && Adds(L, Run(c, L, calls), Accepted(c, L, calls))
    decreases |calls|
  {
    hide Invariant, Held, Weight, After, Taken, Allowed, Shaped;
    if calls != [] {
      CallKeeps(c, L, calls[0]);
      var L1 := After(c, L, calls[0]);
      RunKeeps(c, L1, calls[1..]);
      var ms, more := Taken(L, calls[0]), Accepted(c, L1, calls[1..]);
      forall k: u16
        ensures Held(Run(c, L1, calls[1..]), k) == Held(L, k) + Only(ms + more, k)
      {
        OnlyConcat(ms, more, k);
        Seqs.Regroup(Held(L, k), Only(ms, k), Only(more, k));
      }
    }
  }

  /** Sizes that fit their fields whatever is buffered: no buffer outgrows the chunk size by more than one message. */
  ghost predicate Small(call: Call, chunkSize: nat) {
    match call
    case DefineChannel(d) => d.compression <= CODEC_ZSTD && |StoredDef(d)| < 0x1_0000_0000 && d.chunkSize <= chunkSize
    case WriteMessage(m, _) => chunkSize + 12 + |m.data| < CHUNK_LIMIT
    case AddAnnotation(_, text, metadata) => |StoredAnnotation(text, metadata)| < 0x1_0000_0000
    case _ => true
  }

  lemma CallKeepsSizes(c: Config, L: Log, call: Call, chunkSize: nat)
    requires Shaped(c, L) && Small(call, chunkSize) && forall i :: 0 <= i < |L.channels| ==> L.channels[i].chunkSize <= chunkSize
    ensures forall i :: 0 <= i < |After(c, L, call).channels| ==> After(c, L, call).channels[i].chunkSize <= chunkSize
  {
    hide Write, FlushAll, RotateSegment, StoredDef, StoredAnnotation;
  }

  lemma SmallIsAllowed(c: Config, L: Log, call: Call, chunkSize: nat)
    requires Invariant(c, L) && Small(call, chunkSize) && forall i :: 0 <= i < |L.channels| ==> L.channels[i].chunkSize <= chunkSize
    ensures Allowed(L, call)
  {
    hide Good, StoredDef, StoredAnnotation;
    if call.WriteMessage? && call.m.ch < |L.channels| {
      SessionOf(c, L);
    }
  }

  /** Every run whose chunk sizes and payloads together fit a record may be made. */
  lemma {:induction false} SmallRunIsAllowed(c: Config, L: Log, calls: seq<Call>, chunkSize: nat)
    requires Invariant(c, L) && Shaped(c, L) && forall i :: 0 <= i < |L.channels| ==> L.channels[i].chunkSize <= chunkSize
    requires forall call :: call in calls ==> Small(call, chunkSize)
    ensures AllAllowed(c, L, calls)
    decreases |calls|
  {
    hide Invariant, After, Allowed, Shaped, Small, Adds;
    if calls != [] {
      assert calls[0] in calls;
      SmallIsAllowed(c, L, calls[0], chunkSize);
      CallKeeps(c, L, calls[0]);
      CallKeepsSizes(c, L, calls[0], chunkSize);
      SmallRunIsAllowed(c, After(c, L, calls[0]), calls[1..], chunkSize);
    }
  }

  lemma {:induction false} RunJoins(c: Config, L: Log, a: seq<Call>, b: seq<Call>)
    requires Shaped(c, L)
    ensures Run(c, L, a + b) == Run(c, Run(c, L, a), b)
    ensures AllAllowed(c, L, a + b) <==> AllAllowed(c, L, a) && AllAllowed(c, Run(c, L, a), b)
    ensures Accepted(c, L, a + b) == Accepted(c, L, a) + Accepted(c, Run(c, L, a), b)
    decreases |a|
  {
    hide After, Allowed, Taken;
    if a == [] {
      assert a + b == b;
    } else {
      assert (a + b)[1..] == a[1..] + b;
      RunJoins(c, After(c, L, a[0]), a[1..], b);
      Seqs.Regroup(Taken(L, a[0]), Accepted(c, After(c, L, a[0]), a[1..]), Accepted(c, Run(c, L, a), b));
    }
  }

  lemma RunSnoc(c: Config, L: Log, made: seq<Call>, call: Call)
    requires Shaped(c, L)
    ensures var L1 := Run(c, L, made);
            && Run(c, L, made + [call]) == After(c, L1, call)
            && (AllAllowed(c, L, made + [call]) <==> AllAllowed(c, L, made) && Allowed(L1, call))
            && Accepted(c, L, made + [call]) == Accepted(c, L, made) + Taken(L1, call)
  {
    hide After, Taken, Allowed, Shaped;
    RunJoins(c, L, made, [call]);
    assert [call][1..] == [];
  }
}
