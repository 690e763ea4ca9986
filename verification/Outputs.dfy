/** What the outputs of a merge and of a split say when they are opened again: channels, messages and annotations. */
module Outputs {
  import opened Bytes
  import opened Outcomes
  import opened Routines
  import opened Stream
  import opened Recording
  import opened Lookup
  import opened Runs
  import opened RoundTrip
  import opened Opening
  import opened Chronicle
  import opened Reopening
  import opened Interleaving
  import opened Inputs
  import opened ChannelMaps
  import opened Deliveries
  import opened Merging
  import opened Splitting
  import opened Reassembly
  import Seqs
  import Summary

  // ----- annotations among calls -----

  lemma {:induction false} AnnotatedConcat(a: seq<Call>, b: seq<Call>)
    ensures Annotated(a + b) == Annotated(a) + Annotated(b)
    decreases |a|
  {
    if a == [] {
      assert a + b == b;
    } else {
      assert (a + b)[1..] == a[1..] + b;
      AnnotatedConcat(a[1..], b);
      Seqs.Regroup(Annotated([a[0]]), Annotated(a[1..]), Annotated(b));
      AnnotatedCons(a);
      AnnotatedCons(a + b);
    }
  }

  lemma {:induction false} NothingAnnotated(calls: seq<Call>)
    requires forall call :: call in calls ==> !call.AddAnnotation?
    ensures Annotated(calls) == []
    decreases |calls|
  {
    if calls != [] {
      assert calls[0] in calls;
      NothingAnnotated(calls[1..]);
    }
  }

  lemma {:induction false} NotesAnnotated(notes: seq<Note>)
    requires forall i :: 0 <= i < |notes| ==> NoteFits(notes[i])
    ensures Annotated(NoteCalls(notes)) == notes
    decreases |notes|
  {
    hide StoredAnnotation;
    if notes != [] {
      var n := |notes| - 1;
      NotesAnnotated(notes[..n]);
      var call := AddAnnotation(notes[n].ts, notes[n].text, notes[n].metadata);
      AnnotatedConcat(NoteCalls(notes[..n]), [call]);
      AnnotatedOne(call);
    }
  }

  // ----- split outputs -----

  lemma {:induction false} SharesAnnotateNothing(defs: seq<ChannelDef>, clock: nat -> bool, ms: seq<Msg>, i: nat)
    ensures forall call :: call in ShareCalls(defs, clock, ms, i) ==> !call.AddAnnotation?
    decreases |ms|
  {
    hide IndexOf;
    if ms != [] {
      SharesAnnotateNothing(defs, clock, ms[..|ms| - 1], i);
    }
  }

  lemma SplitAnnotates(lib: Library, input: Input, opts: SplitOptions, progress: nat -> bool, clock: nat -> bool, i: nat)
    requires i < |SplitDefs(input, opts)|
    ensures Annotated(SplitCalls(lib, input, opts, progress, clock)[i]) == if opts.includeAnnotations then NotesOf(input) else []
  {
    hide StreamOf, NotesOf, ChannelsOf, Extracted, Passed, ShareCalls, NoteCalls, NoteFits, Annotated;
    var defs, ms, notes := SplitDefs(input, opts), Passed(progress, 0, StreamOf(lib, input)), NotesOf(input);
    var calls := [DefineChannel(defs[i])] + ShareCalls(defs, clock, ms, i);
    SharesAnnotateNothing(defs, clock, ms, i);
    NothingAnnotated(calls);
    InputNotesFit(input);
    assert notes[..|notes|] == notes;
    NotesAnnotated(notes);
    AnnotatedConcat(calls, NoteCalls(notes));
    assert [] + notes == notes;
  }

  /** The part is output i of a split, read back with or without its manifest. */
  ghost predicate PartOf(lib: Library, input: Input, opts: SplitOptions, envs: nat -> Config, progress: nat -> bool, clock: nat -> bool,
                         i: nat, part: Input) {
    && i < |SplitDefs(input, opts)|
    && var c, calls := OutputConfig(envs(i), SegmentLimit(input, opts)), SplitCalls(lib, input, opts, progress, clock)[i];
       && Usable(c) && c.lib == lib && Permitted(c, calls)
       && ChunksCompressed(c, Closing(c, Run(c, Opened(c), calls)))
       && FileList(part.sources) == SessionFiles(c, calls)
       && (part.known == [] || part.known == [SplitDefs(input, opts)[i].(id := 0)])
  }

  /**
   * Every split output, for all channels or requested ones, cancelled or not: the i-th definition as
   * its one channel; all messages of that channel that were let pass, in order, when it is the first
   * output for it and none otherwise; and the annotations of the source when they are asked for.
   */
  lemma SplitOutputReadsBack(lib: Library, input: Input, opts: SplitOptions, envs: nat -> Config, progress: nat -> bool, clock: nat -> bool,
                             i: nat, part: Input)
    requires PartOf(lib, input, opts, envs, progress, clock, i, part)
    requires var d := SplitDefs(input, opts)[i]; d.name != [] && ShortNames(d)
    ensures var defs, d := SplitDefs(input, opts), SplitDefs(input, opts)[i];
            && ChannelsOf(part) == [d.(id := 0)]
            && StreamOf(lib, part) == (if forall j :: 0 <= j < i ==> defs[j].id != d.id
                                       then Alone(Only(Passed(progress, 0, StreamOf(lib, input)), d.id)) else [])
            && NotesOf(part) == if opts.includeAnnotations then NotesOf(input) else []
  {
    hide Usable, ChunksCompressed, Closing, SessionFiles, Opened, SplitCalls, StreamOf, ChannelsOf, NotesOf, Records, ShortNames, Permitted,
      Share, Only, FileList, SegmentLimit, Run, Alone, Passed, Extracted, Annotated;
    var defs, ms := SplitDefs(input, opts), Passed(progress, 0, StreamOf(lib, input));
    var c, calls := OutputConfig(envs(i), SegmentLimit(input, opts)), SplitCalls(lib, input, opts, progress, clock)[i];
    UsableSession(c);
    SplitRecords(lib, input, opts, progress, clock, c, i);
    ShareIsAlone(defs, ms, i);
    FirstUse(defs, i);
    SharesOnZero(defs, ms, i);
    OutputReadsBack(lib, c, defs[i], calls, Share(defs, ms, i), part);
    SplitAnnotates(lib, input, opts, progress, clock, i);
  }

  lemma FirstUse(defs: seq<ChannelDef>, i: nat)
    requires i < |defs|
    ensures IndexOf(defs, defs[i].id) == i <==> forall j :: 0 <= j < i ==> defs[j].id != defs[i].id
  {
  }

  lemma SharesOnZero(defs: seq<ChannelDef>, ms: seq<Msg>, i: nat)
    requires i < |defs|
    ensures forall m :: m in Share(defs, ms, i) ==> m.ch == 0
  {
    ShareIsAlone(defs, ms, i);
    AloneOnZero(Only(ms, defs[i].id));
  }

  /** By request: output i answers request from[i], and gets its messages unless an earlier request named the same channel. */
  lemma SplitByRequest(lib: Library, input: Input, opts: SplitOptions, envs: nat -> Config, progress: nat -> bool, clock: nat -> bool,
                       i: nat, part: Input)
      returns (from: seq<nat>)
    requires opts.channelIds != [] && PartOf(lib, input, opts, envs, progress, clock, i, part)
    requires var d := SplitDefs(input, opts)[i]; d.name != [] && ShortNames(d)
    ensures Granted(ChannelsOf(input), opts.channelIds, SplitDefs(input, opts), from) && i < |from| && from[i] < |opts.channelIds|
    ensures var id := opts.channelIds[from[i]];
            && (exists d :: Answers(ChannelsOf(input), id, d) && ChannelsOf(part) == [d.(id := 0)])
            && StreamOf(lib, part) == if id !in opts.channelIds[..from[i]] then Alone(Only(Passed(progress, 0, StreamOf(lib, input)), id)) else []
  {
    hide PartOf, ChannelsOf, StreamOf, NotesOf, ShortNames, Only, Alone, Passed, Extracted;
    from := ExtractedAreGranted(ChannelsOf(input), opts.channelIds);
    InRange(lib, input, opts, envs, progress, clock, i, part);
    RequestOf(ChannelsOf(input), opts.channelIds, SplitDefs(input, opts), from, i);
    SplitOutputReadsBack(lib, input, opts, envs, progress, clock, i, part);
  }

  lemma InRange(lib: Library, input: Input, opts: SplitOptions, envs: nat -> Config, progress: nat -> bool, clock: nat -> bool, i: nat, part: Input)
    requires PartOf(lib, input, opts, envs, progress, clock, i, part)
    ensures i < |SplitDefs(input, opts)|
  {
  }

  /** The first output of a channel is the one its first request made. */
  lemma RequestOf(channels: seq<ChannelDef>, ids: seq<u16>, defs: seq<ChannelDef>, from: seq<nat>, i: nat)
    requires Granted(channels, ids, defs, from) && i < |defs|
    ensures from[i] < |ids| && defs[i].id == ids[from[i]] && Answers(channels, ids[from[i]], defs[i])
    ensures (forall j :: 0 <= j < i ==> defs[j].id != defs[i].id) <==> ids[from[i]] !in ids[..from[i]]
  {
    AnswerHasId(channels, ids, defs, from);
    hide Answers;
    if ids[from[i]] in ids[..from[i]] {
      var j := EarlierOutput(channels, ids, defs, from, i);
    } else {
      forall j | 0 <= j < i
        ensures defs[j].id != defs[i].id
      {
        assert ids[..from[i]][from[j]] == defs[j].id;
      }
    }
  }

  /** A request made before has an output before. */
  lemma EarlierOutput(channels: seq<ChannelDef>, ids: seq<u16>, defs: seq<ChannelDef>, from: seq<nat>, i: nat) returns (j: nat)
    requires Granted(channels, ids, defs, from) && i < |defs| && from[i] < |ids| && ids[from[i]] in ids[..from[i]]
    ensures j < i && defs[j].id == defs[i].id
  {
    AnswerHasId(channels, ids, defs, from);
    assert Answers(channels, ids[from[i]], defs[i]);
    InChannels(channels, ids[from[i]], defs[i]);
    hide Answers;
    var p: nat :| p < from[i] && ids[p] == ids[from[i]];
    assert p in from;
    j :| 0 <= j < |from| && from[j] == p;
  }

  lemma AnswerHasId(channels: seq<ChannelDef>, ids: seq<u16>, defs: seq<ChannelDef>, from: seq<nat>)
    requires Granted(channels, ids, defs, from)
    ensures forall t :: 0 <= t < |defs| ==> from[t] < |ids| && defs[t].id == ids[from[t]]
  {
    forall t | 0 <= t < |defs|
      ensures from[t] < |ids| && defs[t].id == ids[from[t]]
    {
      assert Answers(channels, ids[from[t]], defs[t]);
    }
  }

  lemma InChannels(channels: seq<ChannelDef>, id: u16, d: ChannelDef)
    requires Answers(channels, id, d)
    ensures d in channels && d.id == id
  {
  }

  // ----- the merged session -----

  /** Calls that define nothing leave the channels alone. */
  lemma {:induction false} ChannelsStay(c: Config, L: Log, calls: seq<Call>)
    requires Shaped(c, L) && forall call :: call in calls ==> !call.DefineChannel?
    ensures Run(c, L, calls).channels == L.channels
    decreases |calls|
  {
    hide Write, FlushAll, RotateSegment, Annotate;
    if calls != [] {
      assert calls[0] in calls;
      ChannelsStay(c, After(c, L, calls[0]), calls[1..]);
    }
  }

  ghost predicate ByPosition(channels: seq<ChannelDef>) { forall i :: 0 <= i < |channels| ==> channels[i].id == i }

  lemma OneMoreDefined(c: Config, L: Log, d: ChannelDef)
    requires Shaped(c, L) && d.id == |L.channels| < 0xFFFE && d.name != [] && !Named(L.channels, d.name)
    ensures After(c, L, DefineChannel(d)).channels == L.channels + [d]
  {
    hide StoredDef;
    assert d.(id := |L.channels|) == d;
  }

  /** Definitions numbered by position are taken as they are. */
  lemma {:induction false} DefinesTaken(c: Config, L: Log, channels: seq<ChannelDef>)
    requires Shaped(c, L) && L.channels == [] && ByPosition(channels) && Definable(channels) && DistinctNames(channels)
    ensures Run(c, L, DefineCalls(channels)).channels == channels
    decreases |channels|
  {
    hide After, Shaped;
    if channels != [] {
      var n := |channels| - 1;
      DefinesTaken(c, L, channels[..n]);
      RunSnoc(c, L, DefineCalls(channels[..n]), DefineChannel(channels[n]));
      OneMoreDefined(c, Run(c, L, DefineCalls(channels[..n])), channels[n]);
      assert channels == channels[..n] + [channels[n]];
    }
  }

  lemma {:induction false} OnlyDefines(channels: seq<ChannelDef>)
    ensures forall call :: call in DefineCalls(channels) ==> call.DefineChannel? && call.config in channels
    decreases |channels|
  {
    if channels != [] {
      OnlyDefines(channels[..|channels| - 1]);
    }
  }

  lemma {:induction false} OnlyNotes(notes: seq<Note>)
    ensures forall call :: call in NoteCalls(notes) ==> call.AddAnnotation?
    decreases |notes|
  {
    if notes != [] {
      OnlyNotes(notes[..|notes| - 1]);
    }
  }

  /** The source definitions have short names and schemas. */
  ghost predicate AllNamesShort(sources: seq<seq<ChannelDef>>) {
    forall i, j :: 0 <= i < |sources| && 0 <= j < |sources[i]| ==> ShortNames(sources[i][j])
  }

  lemma CopiesAreShort(channels: seq<ChannelDef>, sources: seq<seq<ChannelDef>>, at: seq<Place>)
    requires Copies(channels, sources, at) && AllNamesShort(sources) && |channels| <= 0xFFFE
    ensures ByPosition(channels) && forall i :: 0 <= i < |channels| ==> ShortNames(channels[i])
  {
  }

  /** What the destination of a merge has been told, in terms of channels and annotations. */
  lemma MergeSays(c: Config, channels: seq<ChannelDef>, clock: nat -> bool, ms: seq<Msg>, notes: seq<Note>)
    requires |c.sessionId| == 16 && Definable(channels) && DistinctNames(channels) && ByPosition(channels)
    requires (forall i :: 0 <= i < |channels| ==> ShortNames(channels[i])) && forall i :: 0 <= i < |notes| ==> NoteFits(notes[i])
    ensures var calls := DefineCalls(channels) + WriteCalls(clock, ms) + NoteCalls(notes);
            && Shaped(c, Opened(c)) && Run(c, Opened(c), calls).channels == channels
            && Annotated(calls) == notes && DefinesShort(calls)
  {
    hide Fresh, ShortNames, NoteFits, Definable, DistinctNames, Annotated;
    OpenedIsShaped(c);
    var defines, writes, told := DefineCalls(channels), WriteCalls(clock, ms), NoteCalls(notes);
    OnlyDefines(channels);
    OnlyNotes(notes);
    RunJoins(c, Opened(c), defines + writes, told);
    RunJoins(c, Opened(c), defines, writes);
    DefinesTaken(c, Opened(c), channels);
    ChannelsStay(c, Run(c, Opened(c), defines), writes);
    ChannelsStay(c, Run(c, Opened(c), defines + writes), told);
    NothingAnnotated(defines + writes);
    AnnotatedConcat(defines + writes, told);
    NotesAnnotated(notes);
    assert [] + notes == notes;
  }

  /** The input is what a merge wrote, read back without a manifest or with its list of channels. */
  ghost predicate MergedInto(env: Config, inputs: seq<Input>, opts: MergeOptions, progress: nat -> bool, clock: nat -> bool, merged: Input) {
    var c, calls := OutputConfig(env, opts.maxSegmentBytes), MergeCalls(env.lib, inputs, opts, progress, clock);
    && Usable(c) && Permitted(c, calls)
    && FileList(merged.sources) == SessionFiles(c, calls)
    && (merged.known == [] || merged.known == MapOf(ChannelLists(inputs), opts.mergeDuplicates).channels)
  }

  /**
   * Opening a merged session: its channels are the first definitions of every name over all sources,
   * in source order, whole but for their numbers; its annotations are those of all sources in time
   * order, or none; and it announces on every channel the messages that were written.
   */
  lemma MergedReadsBack(env: Config, inputs: seq<Input>, opts: MergeOptions, progress: nat -> bool, clock: nat -> bool, merged: Input)
      returns (at: seq<Place>)
    requires MergedInto(env, inputs, opts, progress, clock, merged) && MergeStatus(env.lib, inputs, opts, progress) == Ok
    requires AllNamesShort(ChannelLists(inputs))
    ensures Firsts(ChannelLists(inputs), Place(|inputs|, 0), at) && Copies(ChannelsOf(merged), ChannelLists(inputs), at)
    ensures NotesOf(merged) == if opts.includeAnnotations then SortedNotes(AllNotes(inputs)) else []
    ensures NotesInOrder(NotesOf(merged))
    ensures opts.includeAnnotations ==> multiset(NotesOf(merged)) == multiset(AllNotes(inputs))
  {
    hide Usable, Opened, AllAllowed, SessionFiles, Known, Notes, Annotated, MapOf, MergedWrites, ChannelsOf, NotesOf, SortedNotes,
      AllNotes, Firsts, Copies, AllNamesShort, Definable, DistinctNames, ByPosition, AllLand, Picks, OpenAllStatus, ShortNames,
      FileList, SessionRecords, StreamOf, NoteFits, DefinesShort, Only, Summary.Declared, NoneStrays, Accepted, Run;
    var c := OutputConfig(env, opts.maxSegmentBytes);
    var lists := ChannelLists(inputs);
    var m := MapOf(lists, opts.mergeDuplicates);
    assert lists[..|lists|] == lists;
    at := MapCopiesFirsts(lists, |lists|, opts.mergeDuplicates);
    HowManyDefined(m.channels);
    CopiesAreShort(m.channels, lists, at);
    MapFacts(inputs, opts.mergeDuplicates);
    SortedNotesFit(inputs);
    NotesAreSorted(AllNotes(inputs));
    var notes := if opts.includeAnnotations then SortedNotes(AllNotes(inputs)) else [];
    var calls := MergeCalls(env.lib, inputs, opts, progress, clock);
    MergeSays(c, m.channels, clock, MergedWrites(env.lib, inputs, opts, progress), notes);
    ReopenedSays(c, calls);
    InputSays(merged, c, calls);
  }

  lemma HowManyDefined(channels: seq<ChannelDef>)
    requires Definable(channels)
    ensures |channels| <= 0xFFFE
  {
  }

  lemma InputSays(input: Input, c: Config, calls: seq<Call>)
    requires |c.sessionId| == 16 && FileList(input.sources) == SessionFiles(c, calls)
    ensures ChannelsOf(input) == Known(input.known, SessionRecords(SessionFiles(c, calls)))
    ensures NotesOf(input) == Notes(SessionRecords(SessionFiles(c, calls)))
  {
  }
}
