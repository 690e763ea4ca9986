/** Driving the recorder and the reader: a list of calls in, session files out, and the messages back. */
module Sessions {
  import opened Bytes
  import opened Outcomes
  import opened Routines
  import opened Stream
  import opened Recording
  import opened Conservation
  import opened Runs
  import opened RoundTrip
  import opened Playback
  import Writer
  import Accumulator
  import Seqs

  /** One public call on an open recorder. */
  method Perform(w: Writer.RecorderSession, call: Call) returns (taken: seq<Msg>)
    requires w.Valid() && Shaped(w.Cfg, w.L) && Allowed(w.L, call)
    modifies w, w.Idx, w.Accums
    ensures w.Valid() && old(w.Accums) <= w.Accums
    ensures forall i :: |old(w.Accums)| <= i < |w.Accums| && w.Accums[i] != null ==> fresh(w.Accums[i])
    ensures w.L == After(w.Cfg, old(w.L), call)
    ensures taken == Taken(old(w.L), call) && w.Accepted == old(w.Accepted) + taken
  {
    hide Writer.RecorderSession.Valid, Settled, Fits, StoredDef, StoredAnnotation, Write, Annotate, FlushAll, RotateSegment, Define;
    taken := [];
    match call
    case DefineChannel(d) =>
      ghost var n := |w.L.channels|;
      var st, id := w.DefineChannel(d);
    case WriteMessage(m, timeUp) =>
      w.ChannelCount();
      var st := w.Write(m.ch, m.ts, m.data, timeUp);
      if st == Ok {
        taken := [m];
      }
    case AddAnnotation(ts, text, metadata) =>
      var st := w.Annotate(ts, text, metadata);
    case FlushBuffers =>
      var st := w.Flush();
    case RotateNow =>
      var st := w.RotateSegment();
  }

  /** Everything a recorder may change. */
  ghost function Footprint(w: Writer.RecorderSession): set<object>
    reads w`Accums
  {
    {w, w.Idx} + set i | 0 <= i < |w.Accums| && w.Accums[i] != null :: w.Accums[i] as object
  }

  /** The recorder has been opened and these calls have been made on it. */
  ghost predicate Driven(w: Writer.RecorderSession, made: seq<Call>)
    reads w, w.Idx, w.Accums
  {
    && w.Valid() && Shaped(w.Cfg, Opened(w.Cfg))
    && AllAllowed(w.Cfg, Opened(w.Cfg), made)
    && w.L == Run(w.Cfg, Opened(w.Cfg), made)
    && w.Accepted == Runs.Accepted(w.Cfg, Opened(w.Cfg), made)
  }

  method Start(config: Config) returns (w: Writer.RecorderSession)
    requires Usable(Writer.Normalised(config))
    ensures fresh(Footprint(w)) && w.Cfg == Writer.Normalised(config) && Driven(w, [])
  {
    hide Writer.RecorderSession.Valid, Opened, Standard, Inverts;
    w := Writer.RecorderSession.Open(config);
    OpenedIsShaped(w.Cfg);
  }

  /** One more call. */
  method Step(w: Writer.RecorderSession, call: Call, ghost made: seq<Call>) returns (taken: seq<Msg>)
    requires Driven(w, made) && Allowed(w.L, call)
    modifies Footprint(w)
    ensures Driven(w, made + [call])
    ensures forall o :: o in Footprint(w) ==> o in old(Footprint(w)) || fresh(o)
    ensures w.L == After(w.Cfg, old(w.L), call)
    ensures taken == Taken(old(w.L), call) && w.Accepted == old(w.Accepted) + taken
  {
    hide Writer.RecorderSession.Valid, After, Taken, Allowed, Opened, Shaped;
    DrivenFacts(w, made);
    Covers(w);
    taken := Perform(w, call);
    RunSnoc(w.Cfg, Opened(w.Cfg), made, call);
  }

  /** DefineChannel, with its answer. */
  method StepDefine(w: Writer.RecorderSession, d: ChannelDef, ghost made: seq<Call>) returns (st: Status, id: u16)
    requires Driven(w, made) && Allowed(w.L, DefineChannel(d))
    modifies Footprint(w)
    ensures Driven(w, made + [DefineChannel(d)])
    ensures forall o :: o in Footprint(w) ==> o in old(Footprint(w)) || fresh(o)
    ensures w.L == After(w.Cfg, old(w.L), DefineChannel(d)) && w.Accepted == old(w.Accepted)
    ensures Writer.DefineOutcome(old(w.L), d, st, id)
  {
    hide Writer.RecorderSession.Valid, StoredDef, Opened, Define;
    DrivenFacts(w, made);
    Covers(w);
    ghost var L := w.L;
    st, id := w.DefineChannel(d);
    RunSnoc(w.Cfg, Opened(w.Cfg), made, DefineChannel(d));
    assert w.Accepted + [] == w.Accepted;
  }

  lemma DrivenFacts(w: Writer.RecorderSession, made: seq<Call>)
    requires Driven(w, made)
    ensures w.Valid() && |w.Cfg.sessionId| == 16 && Shaped(w.Cfg, w.L)
  {
  }

  lemma Covers(w: Writer.RecorderSession)
    ensures w in Footprint(w) && w.Idx in Footprint(w)
    ensures forall a: Accumulator.ChunkAccumulator? :: a in w.Accums && a != null ==> a as object in Footprint(w)
  {
  }

  /** Close: the session's files and its manifest entries. */
  method Finish(w: Writer.RecorderSession, ghost made: seq<Call>) returns (files: seq<bytes>, infos: seq<SegmentInfo>)
    requires Driven(w, made)
    modifies Footprint(w)
    ensures files == SessionFiles(w.Cfg, made)
    ensures infos == Writer.Infos(w.Cfg, Closing(w.Cfg, Run(w.Cfg, Opened(w.Cfg), made)))
  {
    hide Writer.RecorderSession.Valid, Opened, Closing, Shaped, AllAllowed, Runs.Accepted;
    Covers(w);
    var st := w.Close();
    files := w.Files;
    infos := w.Segments;
  }

  /** A whole recording session: Open, the calls, Close. Returns the files, what the manifest lists, and the accepted messages. */
  method Record(config: Config, calls: seq<Call>) returns (files: seq<bytes>, infos: seq<SegmentInfo>, channels: seq<ChannelDef>, accepted: seq<Msg>)
    requires Usable(Writer.Normalised(config)) && AllAllowed(Writer.Normalised(config), Opened(Writer.Normalised(config)), calls)
    ensures var c := Writer.Normalised(config);
            && files == SessionFiles(c, calls)
            && infos == Writer.Infos(c, Closing(c, Run(c, Opened(c), calls)))
            && channels == Run(c, Opened(c), calls).channels
            && accepted == Runs.Accepted(c, Opened(c), calls)
  {
    hide Writer.RecorderSession.Valid, After, Taken, Allowed, Opened, Shaped, Usable, Run, Runs.Accepted;
    var w := Start(config);
    accepted := [];
    DrivenFacts(w, []);
    NothingAccepted(w.Cfg);
    assert calls[..0] == [];
    for i := 0 to |calls|
      invariant fresh(Footprint(w)) && w.Cfg == Writer.Normalised(config) && Driven(w, calls[..i])
      invariant |accepted| <= i && accepted == w.Accepted
    {
      assert calls[..i + 1] == calls[..i] + [calls[i]];
      assert calls == calls[..i + 1] + calls[i + 1..];
      RunJoins(w.Cfg, Opened(w.Cfg), calls[..i + 1], calls[i + 1..]);
      RunSnoc(w.Cfg, Opened(w.Cfg), calls[..i], calls[i]);
      AtMostOne(w.L, calls[i]);
      var taken := Step(w, calls[i], calls[..i]);
      accepted := accepted + taken;
    }
    assert calls[..|calls|] == calls;
    RunChannels(w, calls);
    channels := w.Channels;
    files, infos := Finish(w, calls);
  }

  lemma RunChannels(w: Writer.RecorderSession, made: seq<Call>)
    requires Driven(w, made)
    ensures Shaped(w.Cfg, Opened(w.Cfg)) && w.Channels == Run(w.Cfg, Opened(w.Cfg), made).channels
  {
    w.ChannelCount();
  }

  lemma NothingAccepted(c: Config)
    requires |c.sessionId| == 16
    ensures Shaped(c, Opened(c)) && Runs.Accepted(c, Opened(c), []) == []
  {
  }

  lemma AtMostOne(L: Log, call: Call)
    ensures |Taken(L, call)| <= 1
  {
  }

  /** Reads a session from its current position to its end. */
  method Drain(r: Reader) returns (ms: seq<Msg>)
    requires r.Valid()
    modifies r
    ensures r.Valid() && r.Remaining() == []
    ensures ms == old(r.Remaining())
    ensures r.CorruptCount == old(r.CorruptCount + r.CorruptAhead())
  {
    hide Reader.Valid, Reader.CorruptAhead;
    ms := [];
    var more := true;
    while more
      invariant r.Valid() && ms + r.Remaining() == old(r.Remaining())
      invariant r.CorruptCount + r.CorruptAhead() == old(r.CorruptCount + r.CorruptAhead())
      invariant !more ==> r.Remaining() == [] && r.CorruptAhead() == 0
      decreases more, |r.Remaining()|
    {
      var m := r.NextMessage();
      if m.Some? {
        Seqs.Regroup(ms, [m.value], r.Remaining());
        ms := ms + [m.value];
      } else {
        more := false;
      }
    }
  }
}
