/** The channel map of a merge: one destination channel for every name. */
module ChannelMaps {
  import opened Bytes
  import opened Outcomes
  import opened Recording
  import opened Lookup

  /** Channel ch of a source goes to this merged channel. */
  datatype Link = Link(source: nat, ch: u16, merged: nat)

  datatype ChannelMap = ChannelMap(ok: bool, channels: seq<ChannelDef>, links: seq<Link>)

  function WithChannel(m: ChannelMap, source: nat, d: ChannelDef, allow: bool): ChannelMap {
    if !m.ok then m
    else
      var at := Position(m.channels, d.name);
      if at == |m.channels| then ChannelMap(true, m.channels + [d.(id := at % 0x1_0000)], m.links + [Link(source, d.id, at)])
      else if !allow then m.(ok := false)
      else ChannelMap(true, m.channels, m.links + [Link(source, d.id, at)])
  }

  function WithSource(m: ChannelMap, source: nat, defs: seq<ChannelDef>, allow: bool): ChannelMap {
    if defs == [] then m
    else WithChannel(WithSource(m, source, defs[..|defs| - 1], allow), source, defs[|defs| - 1], allow)
  }

  function MapOf(sources: seq<seq<ChannelDef>>, allow: bool): ChannelMap {
    if sources == [] then ChannelMap(true, [], [])
    else WithSource(MapOf(sources[..|sources| - 1], allow), |sources| - 1, sources[|sources| - 1], allow)
  }

  /** Builds the merged channel list and where every source channel goes. */
  method MapChannels(sources: seq<seq<ChannelDef>>, allow: bool) returns (m: ChannelMap)
    ensures m == MapOf(sources, allow)
    ensures m.ok ==> exists at :: Firsts(sources, Place(|sources|, 0), at) && Copies(m.channels, sources, at)
  {
    hide Firsts, Copies;
    m := ChannelMap(true, [], []);
    assert sources[..0] == [];
    for ri := 0 to |sources|
      invariant m == MapOf(sources[..ri], allow)
    {
      ghost var before := m;
      assert sources[..ri + 1][..ri] == sources[..ri];
      assert sources[ri][..0] == [];
      for k := 0 to |sources[ri]|
        invariant m == WithSource(before, ri, sources[ri][..k], allow)
      {
        assert sources[ri][..k + 1][..k] == sources[ri][..k];
        var ch := sources[ri][k];
        var at := FindName(m.channels, ch.name);
        if m.ok {
          if at == |m.channels| {
            m := m.(channels := m.channels + [ch.(id := at % 0x1_0000)], links := m.links + [Link(ri, ch.id, at)]);
          } else if !allow {
            m := m.(ok := false);
          } else {
            m := m.(links := m.links + [Link(ri, ch.id, at)]);
          }
        }
      }
      assert sources[ri][..|sources[ri]|] == sources[ri];
    }
    assert sources[..|sources|] == sources;
    if m.ok {
      ghost var at := MapCopiesFirsts(sources, |sources|, allow);
    }
  }

  /** The merged channel that the first link names. */
  function Target(links: seq<Link>, source: nat, ch: u16): Option<nat> {
    if links == [] then None
    else
      var t := Target(links[..|links| - 1], source, ch);
      var last := links[|links| - 1];
      if t.None? && last.source == source && last.ch == ch then Some(last.merged) else t
  }

  method FindTarget(links: seq<Link>, source: nat, ch: u16) returns (t: Option<nat>)
    ensures t == Target(links, source, ch)
  {
    t := None;
    for i := 0 to |links|
      invariant t == Target(links[..i], source, ch)
    {
      assert links[..i + 1][..i] == links[..i];
      if t.None? && links[i].source == source && links[i].ch == ch {
        t := Some(links[i].merged);
      }
    }
    assert links[..|links|] == links;
  }

  /** Every link was made for a definition of its source and leads to the merged channel of that name. */
  ghost predicate LinksSound(m: ChannelMap, sources: seq<seq<ChannelDef>>) {
    forall l :: 0 <= l < |m.links| ==> LinkSound(m.links[l], m.channels, sources)
  }

  ghost predicate LinkSound(l: Link, channels: seq<ChannelDef>, sources: seq<seq<ChannelDef>>) {
    && l.source < |sources| && l.merged < |channels|
    && exists d :: d in sources[l.source] && d.id == l.ch && d.name == channels[l.merged].name
  }

  ghost predicate DistinctNames(channels: seq<ChannelDef>) {
    forall a, b :: 0 <= a < b < |channels| ==> channels[a].name != channels[b].name
  }

  lemma WithChannelIsSound(m: ChannelMap, sources: seq<seq<ChannelDef>>, i: nat, j: nat, allow: bool)
    requires LinksSound(m, sources) && DistinctNames(m.channels) && i < |sources| && j < |sources[i]|
    ensures var m' := WithChannel(m, i, sources[i][j], allow);
            && LinksSound(m', sources) && DistinctNames(m'.channels) && m.links <= m'.links
            && (m'.ok ==> m.ok && |m'.links| > 0 && m'.links[|m'.links| - 1].source == i && m'.links[|m'.links| - 1].ch == sources[i][j].id)
  {
    var d := sources[i][j];
    var m' := WithChannel(m, i, d, allow);
    forall l | 0 <= l < |m'.links|
      ensures LinkSound(m'.links[l], m'.channels, sources)
    {
      if l < |m.links| {
        assert LinkSound(m.links[l], m.channels, sources);
      } else {
        assert d in sources[i];
      }
    }
  }

  lemma {:induction false} TargetIsLink(links: seq<Link>, source: nat, ch: u16)
    ensures Target(links, source, ch).Some? ==> Link(source, ch, Target(links, source, ch).value) in links
    ensures Target(links, source, ch).None? <==> forall l :: l in links ==> l.source != source || l.ch != ch
    decreases |links|
  {
    if links != [] {
      var n := |links| - 1;
      TargetIsLink(links[..n], source, ch);
      assert links == links[..n] + [links[n]];
    }
  }

  lemma TargetStays(links: seq<Link>, more: seq<Link>, source: nat, ch: u16)
    requires links <= more && Target(links, source, ch).Some?
    ensures Target(more, source, ch).Some?
  {
    TargetIsLink(links, source, ch);
    TargetIsLink(more, source, ch);
  }

  lemma {:induction false} SourceIsSound(m: ChannelMap, sources: seq<seq<ChannelDef>>, i: nat, k: nat, allow: bool)
    requires LinksSound(m, sources) && DistinctNames(m.channels) && i < |sources| && k <= |sources[i]|
    ensures var m' := WithSource(m, i, sources[i][..k], allow);
            && LinksSound(m', sources) && DistinctNames(m'.channels) && m.links <= m'.links
            && (m'.ok ==> m.ok && forall j :: 0 <= j < k ==> Target(m'.links, i, sources[i][j].id).Some?)
    decreases k
  {
    hide LinksSound, DistinctNames, WithChannel, Target;
    if k > 0 {
      assert sources[i][..k][..k - 1] == sources[i][..k - 1];
      SourceIsSound(m, sources, i, k - 1, allow);
      var m1 := WithSource(m, i, sources[i][..k - 1], allow);
      var m' := WithSource(m, i, sources[i][..k], allow);
      WithChannelIsSound(m1, sources, i, k - 1, allow);
      if m'.ok {
        forall j | 0 <= j < k
          ensures Target(m'.links, i, sources[i][j].id).Some?
        {
          if j < k - 1 {
            TargetStays(m1.links, m'.links, i, sources[i][j].id);
          } else {
            TargetIsLink(m'.links, i, sources[i][j].id);
          }
        }
      }
    }
  }

  lemma {:induction false} MapIsSound(sources: seq<seq<ChannelDef>>, n: nat, allow: bool)
    requires n <= |sources|
    ensures var m := MapOf(sources[..n], allow);
            && LinksSound(m, sources) && DistinctNames(m.channels)
            && (m.ok ==> forall i, j :: 0 <= i < n && 0 <= j < |sources[i]| ==> Target(m.links, i, sources[i][j].id).Some?)
    decreases n
  {
    hide WithSource, Target;
    if n > 0 {
      var i := n - 1;
      assert sources[..n][..i] == sources[..i];
      MapIsSound(sources, i, allow);
      var m1, m := MapOf(sources[..i], allow), MapOf(sources[..n], allow);
      assert sources[i][..|sources[i]|] == sources[i];
      SourceIsSound(m1, sources, i, |sources[i]|, allow);
      if m.ok {
        forall a, j | 0 <= a < n && 0 <= j < |sources[a]|
          ensures Target(m.links, a, sources[a][j].id).Some?
        {
          if a < i {
            TargetStays(m1.links, m.links, a, sources[a][j].id);
          }
        }
      }
    }
  }

  /** When the channel map is built, merged names are distinct and every source channel goes to the channel of its own name. */
  lemma TargetHasName(sources: seq<seq<ChannelDef>>, allow: bool, i: nat, j: nat)
    requires MapOf(sources, allow).ok && i < |sources| && j < |sources[i]|
    requires forall a, b :: 0 <= a < b < |sources[i]| ==> sources[i][a].id != sources[i][b].id
    ensures DistinctNames(MapOf(sources, allow).channels)
    ensures var m := MapOf(sources, allow);
            var t := Target(m.links, i, sources[i][j].id);
            t.Some? && t.value < |m.channels| && m.channels[t.value].name == sources[i][j].name
  {
    assert sources[..|sources|] == sources;
    MapIsSound(sources, |sources|, allow);
    var m := MapOf(sources, allow);
    TargetIsLink(m.links, i, sources[i][j].id);
    var l := Link(i, sources[i][j].id, Target(m.links, i, sources[i][j].id).value);
    var k :| 0 <= k < |m.links| && m.links[k] == l;
    assert LinkSound(m.links[k], m.channels, sources);
  }

  // ----- which definitions the merged channels are -----

  /** Definition number index of a source. */
  datatype Place = Place(source: nat, index: nat)

  ghost predicate At(sources: seq<seq<ChannelDef>>, p: Place) { p.source < |sources| && p.index < |sources[p.source]| }

  ghost function DefAt(sources: seq<seq<ChannelDef>>, p: Place): ChannelDef
    requires At(sources, p)
  {
    sources[p.source][p.index]
  }

  /** Sources in order, and the definitions of each in order. */
  ghost predicate InFront(p: Place, q: Place) { p.source < q.source || (p.source == q.source && p.index < q.index) }

  /** No definition in front of this one has its name. */
  ghost predicate Foremost(sources: seq<seq<ChannelDef>>, p: Place) {
    At(sources, p) && forall q :: At(sources, q) && InFront(q, p) ==> DefAt(sources, q).name != DefAt(sources, p).name
  }

  ghost predicate Listed(sources: seq<seq<ChannelDef>>, at: seq<Place>, name: bytes) {
    exists t :: 0 <= t < |at| && At(sources, at[t]) && DefAt(sources, at[t]).name == name
  }

  /** Of the definitions in front of end these places hold, in order, the first of every name. */
  ghost predicate Firsts(sources: seq<seq<ChannelDef>>, end: Place, at: seq<Place>) {
    && (forall t :: 0 <= t < |at| ==> Foremost(sources, at[t]) && InFront(at[t], end))
    && (forall t, u :: 0 <= t < u < |at| ==> InFront(at[t], at[u]))
    && forall p :: At(sources, p) && InFront(p, end) ==> Listed(sources, at, DefAt(sources, p).name)
  }

  /** The definitions at the places, whole, but numbered by position. */
  ghost predicate Copies(channels: seq<ChannelDef>, sources: seq<seq<ChannelDef>>, at: seq<Place>) {
    && |channels| == |at|
    && forall t :: 0 <= t < |at| ==> At(sources, at[t]) && channels[t] == DefAt(sources, at[t]).(id := t % 0x1_0000)
  }

  lemma NewIsForemost(sources: seq<seq<ChannelDef>>, end: Place, at: seq<Place>)
    requires At(sources, end) && Firsts(sources, end, at) && !Listed(sources, at, DefAt(sources, end).name)
    ensures Foremost(sources, end)
  {
    hide Listed;
  }

  lemma ListedOn(sources: seq<seq<ChannelDef>>, at: seq<Place>, q: Place, name: bytes)
    requires Listed(sources, at, name) || (At(sources, q) && DefAt(sources, q).name == name)
    ensures Listed(sources, at + [q], name)
  {
    var more := at + [q];
    if Listed(sources, at, name) {
      var t :| 0 <= t < |at| && At(sources, at[t]) && DefAt(sources, at[t]).name == name;
      assert more[t] == at[t];
    } else {
      assert more[|at|] == q;
    }
  }

  lemma PlaceAdded(sources: seq<seq<ChannelDef>>, end: Place, at: seq<Place>)
    requires At(sources, end) && Firsts(sources, end, at) && !Listed(sources, at, DefAt(sources, end).name)
    ensures Firsts(sources, Place(end.source, end.index + 1), at + [end])
  {
    NewIsForemost(sources, end, at);
    hide Listed, Foremost;
    forall p | At(sources, p) && InFront(p, Place(end.source, end.index + 1))
      ensures Listed(sources, at + [end], DefAt(sources, p).name)
    {
      assert p == end || InFront(p, end);
      ListedOn(sources, at, end, DefAt(sources, p).name);
    }
  }

  lemma PlaceRepeated(sources: seq<seq<ChannelDef>>, end: Place, at: seq<Place>)
    requires At(sources, end) && Firsts(sources, end, at) && Listed(sources, at, DefAt(sources, end).name)
    ensures Firsts(sources, Place(end.source, end.index + 1), at)
  {
    hide Listed, Foremost;
    assert forall p :: At(sources, p) && InFront(p, Place(end.source, end.index + 1)) ==> p == end || InFront(p, end);
  }

  lemma ListedByCopy(channels: seq<ChannelDef>, sources: seq<seq<ChannelDef>>, at: seq<Place>, name: bytes)
    requires Copies(channels, sources, at)
    ensures Listed(sources, at, name) <==> Position(channels, name) < |channels|
  {
    var k := Position(channels, name);
    if k < |channels| {
      assert channels[k].name == DefAt(sources, at[k]).name;
    }
  }

  lemma StepCopies(m: ChannelMap, sources: seq<seq<ChannelDef>>, end: Place, at: seq<Place>, allow: bool) returns (more: seq<Place>)
    requires At(sources, end) && Firsts(sources, end, at) && Copies(m.channels, sources, at)
    requires WithChannel(m, end.source, DefAt(sources, end), allow).ok
    ensures Firsts(sources, Place(end.source, end.index + 1), more)
    ensures Copies(WithChannel(m, end.source, DefAt(sources, end), allow).channels, sources, more)
  {
    hide Firsts, Listed;
    ListedByCopy(m.channels, sources, at, DefAt(sources, end).name);
    if Listed(sources, at, DefAt(sources, end).name) {
      more := at;
      PlaceRepeated(sources, end, at);
    } else {
      more := at + [end];
      PlaceAdded(sources, end, at);
    }
  }

  lemma {:induction false} SourceCopies(m: ChannelMap, sources: seq<seq<ChannelDef>>, i: nat, k: nat, at: seq<Place>, allow: bool)
      returns (more: seq<Place>)
    requires i < |sources| && k <= |sources[i]| && Firsts(sources, Place(i, 0), at) && Copies(m.channels, sources, at)
    requires WithSource(m, i, sources[i][..k], allow).ok
    ensures Firsts(sources, Place(i, k), more)
    ensures Copies(WithSource(m, i, sources[i][..k], allow).channels, sources, more)
    decreases k
  {
    hide Firsts, Copies;
    if k == 0 {
      more := at;
    } else {
      assert sources[i][..k][..k - 1] == sources[i][..k - 1];
      var m1 := WithSource(m, i, sources[i][..k - 1], allow);
      var before := SourceCopies(m, sources, i, k - 1, at, allow);
      more := StepCopies(m1, sources, Place(i, k - 1), before, allow);
    }
  }

  lemma NextSource(sources: seq<seq<ChannelDef>>, i: nat, at: seq<Place>)
    requires i < |sources| && Firsts(sources, Place(i, |sources[i]|), at)
    ensures Firsts(sources, Place(i + 1, 0), at)
  {
    assert forall p :: At(sources, p) && InFront(p, Place(i + 1, 0)) ==> InFront(p, Place(i, |sources[i]|));
  }

  /**
   * The merged channels are the first definitions of every name in source order, copied whole but for
   * their number, which is their position.
   */
  lemma {:induction false} MapCopiesFirsts(sources: seq<seq<ChannelDef>>, n: nat, allow: bool) returns (at: seq<Place>)
    requires n <= |sources| && MapOf(sources[..n], allow).ok
    ensures Firsts(sources, Place(n, 0), at) && Copies(MapOf(sources[..n], allow).channels, sources, at)
    decreases n
  {
    if n == 0 {
      at := [];
    } else {
      hide WithSource, Firsts, Copies;
      var i := n - 1;
      assert sources[..n][..i] == sources[..i];
      assert sources[i][..|sources[i]|] == sources[i];
      SourceKeepsOk(MapOf(sources[..i], allow), i, sources[i], allow);
      var before := MapCopiesFirsts(sources, i, allow);
      at := SourceCopies(MapOf(sources[..i], allow), sources, i, |sources[i]|, before, allow);
      NextSource(sources, i, at);
    }
  }

  lemma {:induction false} SourceKeepsOk(m: ChannelMap, source: nat, defs: seq<ChannelDef>, allow: bool)
    ensures WithSource(m, source, defs, allow).ok ==> m.ok
    decreases |defs|
  {
    if defs != [] {
      SourceKeepsOk(m, source, defs[..|defs| - 1], allow);
    }
  }
}
