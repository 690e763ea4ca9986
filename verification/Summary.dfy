/** What the records of one segment say about it as a whole: seek points, time range, declared message counts. */
module Summary {
  import opened Bytes
  import opened Format
  import opened Routines
  import opened Stream
  import opened Index

  predicate HoldsData(r: Rec) { r.op == OP_DATA || r.op == OP_CHUNK }

  /** The seek points of a sequence of records that starts right behind the header. */
  function PointsOf(interval: u64, rs: seq<Rec>): seq<SeekPoint> {
    if rs == [] then []
    else
      var before, r := rs[..|rs| - 1], rs[|rs| - 1];
      if HoldsData(r) then AddIfDue(interval, PointsOf(interval, before), SeekPoint(r.ch, r.ts, HEADER_SIZE + |EncodeAll(before)|))
      else PointsOf(interval, before)
  }

  /** Least and greatest timestamp of the data records; the sentinel and 0 when there are none. */
  function Least(rs: seq<Rec>): u64 {
    if rs == [] then U64_MAX
    else
      var m, r := Least(rs[..|rs| - 1]), rs[|rs| - 1];
      if HoldsData(r) && r.ts < m then r.ts else m
  }

  function Greatest(rs: seq<Rec>): u64 {
    if rs == [] then 0
    else
      var m, r := Greatest(rs[..|rs| - 1]), rs[|rs| - 1];
      if HoldsData(r) && r.ts > m then r.ts else m
  }

  function StartOf(rs: seq<Rec>): u64 { if Least(rs) == U64_MAX then 0 else Least(rs) }

  lemma PointsSnoc(interval: u64, rs: seq<Rec>, r: Rec)
    ensures PointsOf(interval, rs + [r]) ==
            if HoldsData(r) then AddIfDue(interval, PointsOf(interval, rs), SeekPoint(r.ch, r.ts, HEADER_SIZE + |EncodeAll(rs)|))
            else PointsOf(interval, rs)
    ensures Least(rs + [r]) == (if HoldsData(r) && r.ts < Least(rs) then r.ts else Least(rs))
    ensures Greatest(rs + [r]) == (if HoldsData(r) && r.ts > Greatest(rs) then r.ts else Greatest(rs))
  {
    hide EncodeAll, AddIfDue;
    assert (rs + [r])[..|rs|] == rs;
  }

  /** The least and the greatest timestamp of the data records, each that of one of them when there are any. */
  lemma {:induction false} RangeOfRecords(rs: seq<Rec>)
    ensures forall r :: r in rs && HoldsData(r) ==> Least(rs) <= r.ts <= Greatest(rs)
    ensures (exists r :: r in rs && HoldsData(r)) ==>
              (exists r :: r in rs && HoldsData(r) && r.ts == Least(rs)) && exists r :: r in rs && HoldsData(r) && r.ts == Greatest(rs)
    ensures (forall r :: r in rs ==> !HoldsData(r)) ==> Least(rs) == U64_MAX && Greatest(rs) == 0
    decreases |rs|
  {
    hide HoldsData;
    if rs != [] {
      var n := |rs| - 1;
      var before, r := rs[..n], rs[n];
      assert rs == before + [r];
      RangeOfRecords(before);
      if exists q :: q in before && HoldsData(q) {
        var a :| a in before && HoldsData(a) && a.ts == Least(before);
        var b :| b in before && HoldsData(b) && b.ts == Greatest(before);
        assert a in rs && b in rs;
      }
      assert r in rs;
    }
  }

  // ----- declared message counts -----

  /** How many messages a record announces, whether or not they can be read. */
  function Declares(r: Rec): nat {
    if r.op == OP_DATA then 1
    else if r.op == OP_CHUNK && |r.payload| >= CHUNK_HEADER_SIZE then ChunkCount(r.payload)
    else 0
  }

  function Declared(rs: seq<Rec>, ch: u16): nat {
    if rs == [] then 0
    else Declared(rs[..|rs| - 1], ch) + (if rs[|rs| - 1].ch == ch then Declares(rs[|rs| - 1]) else 0)
  }

  /** Everything the record announces is delivered. */
  ghost predicate Whole(lib: Library, r: Rec) { |RecMsgs(lib, r)| == Declares(r) }

  lemma {:induction false} UnpackBound(ch: u16, buf: bytes, n: nat)
    ensures |Unpack(ch, buf, n)| <= n
    ensures forall m :: m in Unpack(ch, buf, n) ==> m.ch == ch
    decreases n
  {
    hide InnerStuck;
    if n > 0 && !InnerStuck(buf) {
      UnpackBound(ch, buf[InnerExtent(buf)..], n - 1);
    }
  }

  lemma DeliversAtMost(lib: Library, r: Rec)
    ensures |RecMsgs(lib, r)| <= Declares(r)
    ensures forall m :: m in RecMsgs(lib, r) ==> m.ch == r.ch
  {
    hide Intact, Decompress, Unpack, U32;
    if r.op == OP_CHUNK && |r.payload| >= CHUNK_HEADER_SIZE && ChunkBuffer(lib, r.payload).Some? {
      UnpackBound(r.ch, ChunkBuffer(lib, r.payload).value, ChunkCount(r.payload));
    }
  }

  /**
   * Counting and delivering agree: on every sequence of records, a drained reader yields on each
   * channel at most the declared number of messages, and exactly that number if and only if every
   * record of the channel delivers all it announces.
   */
  lemma {:induction false} DeliveredAgainstDeclared(lib: Library, rs: seq<Rec>, ch: u16)
    ensures |Only(Msgs(lib, rs), ch)| <= Declared(rs, ch)
    ensures |Only(Msgs(lib, rs), ch)| == Declared(rs, ch) <==> forall r :: r in rs && r.ch == ch ==> Whole(lib, r)
    decreases |rs|
  {
    hide RecMsgs, RecCorrupt, Declares;
    if rs != [] {
      var n := |rs| - 1;
      var before, r := rs[..n], rs[n];
      assert rs == before + [r];
      DeliveredAgainstDeclared(lib, before, ch);
      MsgsConcat(lib, before, [r]);
      assert [r][1..] == [] && RecMsgs(lib, r) + [] == RecMsgs(lib, r);
      OnlyConcat(Msgs(lib, before), RecMsgs(lib, r), ch);
      DeliversAtMost(lib, r);
      OnlyOf(RecMsgs(lib, r), r.ch, ch);
    }
  }
}
