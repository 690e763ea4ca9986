/** Sessions as inputs of split and merge: opened, with what their records say. */
module Inputs {
  import opened Bytes
  import opened Format
  import opened Outcomes
  import opened Routines
  import opened Stream
  import opened Recording
  import opened Opening
  import opened Playback

  /** A session to read: the channels its manifest lists, and its segments. */
  datatype Input = Input(known: seq<ChannelDef>, sources: seq<Source>)

  function FileList(sources: seq<Source>): seq<bytes> {
    if sources == [] then []
    else FileList(sources[..|sources| - 1]) + match sources[|sources| - 1].file case Some(f) => [f] case None => []
  }

  function InputRecords(input: Input): seq<Rec> { SessionRecords(FileList(input.sources)) }

  function StreamOf(lib: Library, input: Input): seq<Msg> { Msgs(lib, InputRecords(input)) }

  function ChannelsOf(input: Input): seq<ChannelDef> { Known(input.known, InputRecords(input)) }

  function NotesOf(input: Input): seq<Note> { Notes(InputRecords(input)) }

  /** The outcome of opening the inputs in order: that of the first that fails. */
  function OpenAllStatus(inputs: seq<Input>): Status {
    if inputs == [] then Ok
    else
      var before := OpenAllStatus(inputs[..|inputs| - 1]);
      if before != Ok then before else OpenStatus(inputs[|inputs| - 1].sources)
  }

  /** All inputs open, or the outcome is that of the first that does not. */
  lemma {:induction false} FirstToFail(inputs: seq<Input>) returns (k: nat)
    ensures k <= |inputs| && (forall i :: 0 <= i < k ==> OpenStatus(inputs[i].sources) == Ok)
    ensures if k == |inputs| then OpenAllStatus(inputs) == Ok
            else OpenStatus(inputs[k].sources) != Ok && OpenAllStatus(inputs) == OpenStatus(inputs[k].sources)
    decreases |inputs|
  {
    hide OpenStatus;
    if inputs == [] {
      k := 0;
    } else {
      k := FirstToFail(inputs[..|inputs| - 1]);
      if k == |inputs| - 1 && OpenStatus(inputs[k].sources) == Ok {
        k := |inputs|;
      }
    }
  }

  /** A reader stands at the start of an input. */
  ghost predicate Reads(lib: Library, r: Reader, input: Input)
    reads r
  {
    && r.Valid() && r.Lib == lib
    && r.Remaining() == StreamOf(lib, input)
    && r.Channels == ChannelsOf(input) && r.Annots == NotesOf(input)
  }

  lemma {:induction false} FileListOfSegs(segs: seq<SegmentData>, present: seq<Source>)
    requires |segs| == |present| && forall i :: 0 <= i < |segs| ==> present[i].file == Some(segs[i].file)
    ensures FilesOf(segs) == FileList(present)
    decreases |segs|
  {
    if segs != [] {
      var n := |segs| - 1;
      assert segs == segs[..n] + [segs[n]];
      FilesSnoc(segs[..n], segs[n]);
      FileListOfSegs(segs[..n], present[..n]);
    }
  }

  lemma {:induction false} FileListOfPresent(sources: seq<Source>)
    ensures FileList(Present(sources)) == FileList(sources)
    decreases |sources|
  {
    if sources != [] {
      var n := |sources| - 1;
      FileListOfPresent(sources[..n]);
      if sources[n].file.Some? {
        assert Present(sources)[..|Present(sources[..n])|] == Present(sources[..n]);
      } else {
        assert Present(sources) == Present(sources[..n]);
      }
    }
  }

  method OpenInput(lib: Library, input: Input) returns (st: Status, r: Reader?)
    requires Standard(lib)
    ensures st == OpenStatus(input.sources) && (r != null <==> st == Ok)
    ensures r != null ==> fresh(r) && Reads(lib, r, input)
  {
    hide Standard, Reader.Valid, FileRecords, Loaded, Known, Notes, Msgs, SessionRecords, OpenStatus, Present;
    st, r := Reader.OpenDirectory(lib, input.known, input.sources);
    if r != null {
      forall i | 0 <= i < |r.Segs|
        ensures Present(input.sources)[i].file == Some(r.Segs[i].file)
      {
        PlacedFile(r.Segs[i], Present(input.sources)[i]);
      }
      FileListOfSegs(r.Segs, Present(input.sources));
      FileListOfPresent(input.sources);
    }
  }

  method OpenAll(lib: Library, inputs: seq<Input>) returns (st: Status, readers: seq<Reader>)
    requires Standard(lib)
    ensures st == OpenAllStatus(inputs)
    ensures st == Ok ==>
              && |readers| == |inputs|
              && (forall i :: 0 <= i < |readers| ==> fresh(readers[i]) && Reads(lib, readers[i], inputs[i]))
              && forall i, j :: 0 <= i < j < |readers| ==> readers[i] != readers[j]
  {
    hide Standard, Reads, OpenStatus;
    readers := [];
    assert inputs[..0] == [];
    for i := 0 to |inputs|
      invariant |readers| == i && OpenAllStatus(inputs[..i]) == Ok
      invariant forall k :: 0 <= k < i ==> fresh(readers[k]) && Reads(lib, readers[k], inputs[k])
      invariant forall j, k :: 0 <= j < k < i ==> readers[j] != readers[k]
    {
      assert inputs[..i + 1][..i] == inputs[..i];
      var r;
      st, r := OpenInput(lib, inputs[i]);
      if r == null {
        FirstFailure(inputs, i + 1);
        return;
      }
      readers := readers + [r];
    }
    assert inputs[..|inputs|] == inputs;
    st := Ok;
  }

  lemma {:induction false} FirstFailure(inputs: seq<Input>, n: nat)
    requires n <= |inputs| && OpenAllStatus(inputs[..n]) != Ok
    ensures OpenAllStatus(inputs) == OpenAllStatus(inputs[..n])
    decreases |inputs| - n
  {
    hide OpenStatus;
    if n == |inputs| {
      assert inputs[..n] == inputs;
    } else {
      assert inputs[..n + 1][..n] == inputs[..n];
      FirstFailure(inputs, n + 1);
    }
  }
}
