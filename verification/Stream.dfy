/** What the bytes of a session mean: the messages a reader takes from records, files and whole sessions. */
module Stream {
  import opened Bytes
  import opened Format
  import opened Outcomes
  import opened Routines
  import Seqs

  datatype Msg = Msg(ch: u16, ts: u64, data: bytes)

  // ----- inner records of a chunk -----

  function InnerOne(m: Msg): (s: bytes)
    ensures |s| == 12 + |m.data|
  {
    LE(m.ts, 8) + LE(|m.data|, 4) + m.data
  }

  function Inner(ms: seq<Msg>): bytes {
    if ms == [] then [] else InnerOne(ms[0]) + Inner(ms[1..])
  }

  predicate InnerStuck(buf: bytes) {
    |buf| < 12 || |buf| < 12 + U32(buf[8..12])
  }

  function InnerExtent(buf: bytes): (n: nat)
    requires !InnerStuck(buf)
    ensures 12 <= n <= |buf|
  {
    12 + U32(buf[8..12])
  }

  /** The first n messages packed in buf, or as many as are complete. */
  function Unpack(ch: u16, buf: bytes, n: nat): seq<Msg>
    decreases n
  {
    if n == 0 || InnerStuck(buf) then []
    else [Msg(ch, U64(buf[..8]), buf[12..InnerExtent(buf)])] + Unpack(ch, buf[InnerExtent(buf)..], n - 1)
  }

  ghost predicate OnChannel(ms: seq<Msg>, ch: u16) {
    forall m :: m in ms ==> m.ch == ch && |m.data| < 0x1_0000_0000
  }

  lemma InnerStep(m: Msg, rest: bytes)
    requires |m.data| < 0x1_0000_0000
    ensures var s := InnerOne(m) + rest;
            !InnerStuck(s) && InnerExtent(s) == |InnerOne(m)| && s[InnerExtent(s)..] == rest
            && Msg(m.ch, U64(s[..8]), s[12..InnerExtent(s)]) == m
  {
    var s := InnerOne(m) + rest;
    assert s[..8] == LE(m.ts, 8);
    assert s[8..12] == LE(|m.data|, 4);
    assert s[12..12 + |m.data|] == m.data;
    ReadBack(0, |m.data|, m.ts);
  }

  /** What Push packs into a buffer, the reader unpacks. */
  lemma {:induction false} UnpackOfInner(ch: u16, ms: seq<Msg>)
    requires OnChannel(ms, ch)
    ensures Unpack(ch, Inner(ms), |ms|) == ms
    decreases |ms|
  {
    if ms != [] {
      InnerStep(ms[0], Inner(ms[1..]));
      UnpackOfInner(ch, ms[1..]);
    }
  }

  lemma {:induction false} InnerSnoc(ms: seq<Msg>, m: Msg)
    ensures Inner(ms + [m]) == Inner(ms) + InnerOne(m)
    decreases |ms|
  {
    if ms == [] {
      assert [m][1..] == [];
    } else {
      assert (ms + [m])[1..] == ms[1..] + [m];
      InnerSnoc(ms[1..], m);
      Seqs.Regroup(InnerOne(ms[0]), Inner(ms[1..]), InnerOne(m));
    }
  }

  // ----- records, files, sessions -----

  const CHUNK_HEADER_SIZE: nat := 9

  function ChunkBuffer(lib: Library, payload: bytes): Option<bytes>
    requires |payload| >= CHUNK_HEADER_SIZE
  {
    Decompress(lib, payload[0], payload[9..], U32(payload[1..5]))
  }

  function ChunkCount(payload: bytes): u32
    requires |payload| >= CHUNK_HEADER_SIZE
  {
    U32(payload[5..9])
  }

  /** The messages a reader delivers from one record. */
  function RecMsgs(lib: Library, r: Rec): seq<Msg> {
    if !Intact(lib, r) then []
    else if r.op == OP_DATA then [Msg(r.ch, r.ts, r.payload)]
    else if r.op == OP_CHUNK && |r.payload| >= CHUNK_HEADER_SIZE then
      match ChunkBuffer(lib, r.payload) {
        case Some(buf) => Unpack(r.ch, buf, ChunkCount(r.payload))
        case None => []
      }
    else []
  }

  /** What one record adds to the reader's count of corrupt records. */
  function RecCorrupt(lib: Library, r: Rec): nat {
    if !Intact(lib, r) then 1
    else if r.op == OP_CHUNK && |r.payload| >= CHUNK_HEADER_SIZE && ChunkBuffer(lib, r.payload).None? then 1
    else 0
  }

  function Msgs(lib: Library, rs: seq<Rec>): seq<Msg> {
    if rs == [] then [] else RecMsgs(lib, rs[0]) + Msgs(lib, rs[1..])
  }

  function Corrupt(lib: Library, rs: seq<Rec>): nat {
    if rs == [] then 0 else RecCorrupt(lib, rs[0]) + Corrupt(lib, rs[1..])
  }

  /** The bytes of a file from an offset on; nothing behind its end. */
  function From(file: bytes, offset: nat): bytes {
    if offset <= |file| then file[offset..] else []
  }

  function FileRecords(file: bytes): seq<Rec> { Records(From(file, HEADER_SIZE)) }

  function SessionRecords(files: seq<bytes>): seq<Rec> {
    if files == [] then [] else FileRecords(files[0]) + SessionRecords(files[1..])
  }

  function SessionMsgs(lib: Library, files: seq<bytes>): seq<Msg> { Msgs(lib, SessionRecords(files)) }

  lemma {:induction false} MsgsConcat(lib: Library, a: seq<Rec>, b: seq<Rec>)
    ensures Msgs(lib, a + b) == Msgs(lib, a) + Msgs(lib, b)
    ensures Corrupt(lib, a + b) == Corrupt(lib, a) + Corrupt(lib, b)
    decreases |a|
  {
    if a == [] {
      assert a + b == b;
    } else {
      assert (a + b)[1..] == a[1..] + b;
      MsgsConcat(lib, a[1..], b);
      Seqs.Regroup(RecMsgs(lib, a[0]), Msgs(lib, a[1..]), Msgs(lib, b));
    }
  }

  /** Under a checksum that does not hold, or a chunk that does not decompress. */
  ghost predicate Unusable(lib: Library, r: Rec) {
    || (r.flags / 2 % 2 == 1 && r.crc != lib.crc32(Head(r) + r.payload))
    || (r.op == OP_CHUNK && |r.payload| >= 9 && Decompress(lib, r.payload[0], r.payload[9..], U32(r.payload[1..5])).None?)
  }

  ghost function UnusableFrom(lib: Library, rs: seq<Rec>, k: nat): set<nat> { set i: nat | k <= i < |rs| && Unusable(lib, rs[i]) }

  lemma {:induction false} CorruptFrom(lib: Library, rs: seq<Rec>, k: nat)
    requires k <= |rs|
    ensures Corrupt(lib, rs[k..]) == |UnusableFrom(lib, rs, k)|
    decreases |rs| - k
  {
    hide Unusable, RecCorrupt;
    if k == |rs| {
      assert UnusableFrom(lib, rs, k) == {};
    } else {
      CorruptFrom(lib, rs, k + 1);
      assert rs[k..][1..] == rs[k + 1..];
      UnusableCounts(lib, rs[k]);
      var rest := UnusableFrom(lib, rs, k + 1);
      assert UnusableFrom(lib, rs, k) == if Unusable(lib, rs[k]) then rest + {k} else rest;
    }
  }

  lemma UnusableCounts(lib: Library, r: Rec)
    ensures RecCorrupt(lib, r) == if Unusable(lib, r) then 1 else 0
    ensures RecCorrupt(lib, r) == 1 ==> RecMsgs(lib, r) == []
  {
    hide Decompress, U32;
  }

  /** The corrupt count is the number of records that are unusable; none of them delivers anything. */
  lemma CorruptIsCount(lib: Library, rs: seq<Rec>)
    ensures Corrupt(lib, rs) == |UnusableFrom(lib, rs, 0)|
    ensures forall r :: r in rs && Unusable(lib, r) ==> RecMsgs(lib, r) == []
  {
    hide Unusable, RecMsgs;
    assert rs[0..] == rs;
    CorruptFrom(lib, rs, 0);
    forall r | r in rs && Unusable(lib, r)
      ensures RecMsgs(lib, r) == []
    {
      UnusableCounts(lib, r);
    }
  }

  lemma {:induction false} SessionSnoc(files: seq<bytes>, f: bytes)
    ensures SessionRecords(files + [f]) == SessionRecords(files) + FileRecords(f)
    decreases |files|
  {
    hide FileRecords;
    if files == [] {
      assert [f][1..] == [];
      assert FileRecords(f) + [] == FileRecords(f);
    } else {
      assert (files + [f])[1..] == files[1..] + [f];
      SessionSnoc(files[1..], f);
      Seqs.Regroup(FileRecords(files[0]), SessionRecords(files[1..]), FileRecords(f));
    }
  }

  // ----- one channel of a stream -----

  /** The timestamps never decrease. */
  ghost predicate RisingMsgs(ms: seq<Msg>) { forall i, j :: 0 <= i < j < |ms| ==> ms[i].ts <= ms[j].ts }

  function Only(ms: seq<Msg>, ch: u16): seq<Msg> {
    if ms == [] then [] else (if ms[0].ch == ch then [ms[0]] else []) + Only(ms[1..], ch)
  }

  lemma {:induction false} NothingOn(ms: seq<Msg>, k: u16)
    requires forall m :: m in ms ==> m.ch != k
    ensures Only(ms, k) == []
  {
    if ms != [] {
      NothingOn(ms[1..], k);
    }
  }

  lemma {:induction false} OnlyConcat(a: seq<Msg>, b: seq<Msg>, ch: u16)
    ensures Only(a + b, ch) == Only(a, ch) + Only(b, ch)
    decreases |a|
  {
    if a == [] {
      assert a + b == b;
    } else {
      assert (a + b)[1..] == a[1..] + b;
      OnlyConcat(a[1..], b, ch);
      Seqs.Regroup(if a[0].ch == ch then [a[0]] else [], Only(a[1..], ch), Only(b, ch));
    }
  }

  lemma {:induction false} OnlyOf(ms: seq<Msg>, ch: u16, other: u16)
    requires forall m :: m in ms ==> m.ch == ch
    ensures Only(ms, other) == if other == ch then ms else []
    decreases |ms|
  {
    if ms != [] {
      assert ms == [ms[0]] + ms[1..];
      OnlyOf(ms[1..], ch, other);
    }
  }

  // ----- several message lists -----

  function Total(parts: seq<seq<Msg>>): nat {
    if parts == [] then 0 else Total(parts[..|parts| - 1]) + |parts[|parts| - 1]|
  }

  lemma {:induction false} TotalUpdate(p: seq<seq<Msg>>, i: nat, ms: seq<Msg>)
    requires i < |p|
    ensures Total(p[i := ms]) == Total(p) - |p[i]| + |ms|
    decreases |p|
  {
    var n := |p| - 1;
    if i == n {
      assert p[i := ms][..n] == p[..n];
    } else {
      assert p[i := ms][..n] == p[..n][i := ms];
      TotalUpdate(p[..n], i, ms);
    }
  }
}
