/** A closing bracket that closes none, in one string of a channel: the list of channels then runs to the end of the manifest. */
module Unclosed {
  import opened Bytes
  import opened Outcomes
  import opened Recording
  import opened Json
  import opened Manifest
  import opened KeySearch
  import opened ObjectReading
  import opened Bracketing
  import opened ManifestReading
  import Seqs

  // ----- one closing bracket too many -----

  /** The i-th byte is a closing bracket, and in front of it and behind it brackets close each other. */
  ghost predicate LeaksAt(s: bytes, i: nat) { i < |s| && s[i] == CLOSE_BRACKET && Even(s[..i]) && Even(s[i + 1..]) }

  ghost predicate Leaks(s: bytes) { exists i :: LeaksAt(s, i) }

  lemma LeakBehind(a: bytes, s: bytes, b: bytes)
    requires Even(a) && Leaks(s) && Even(b)
    ensures Leaks(a + s + b)
  {
    hide Even;
    var i: nat :| LeaksAt(s, i);
    var all := a + s + b;
    assert all[..|a| + i] == a + s[..i] && all[|a| + i + 1..] == s[i + 1..] + b;
    EvenConcat(a, s[..i]);
    EvenConcat(s[i + 1..], b);
    assert LeaksAt(all, |a| + i);
  }

  lemma {:induction false} EscapeConcat(a: bytes, b: bytes)
    ensures Escape(a + b) == Escape(a) + Escape(b)
    decreases |b|
  {
    hide EscapeOne;
    if b == [] {
      assert a + b == a;
    } else {
      var n := |b| - 1;
      assert (a + b)[..|a + b| - 1] == a + b[..n];
      EscapeConcat(a, b[..n]);
      Seqs.Regroup(Escape(a), Escape(b[..n]), EscapeOne(b[n]));
    }
  }

  lemma EscapeLeaks(s: bytes)
    requires Leaks(s)
    ensures Leaks(Escape(s))
  {
    hide Even, Escape;
    var i: nat :| LeaksAt(s, i);
    var x, z := s[..i], s[i + 1..];
    assert s == x + ([CLOSE_BRACKET] + z);
    EscapeConcat(x, [CLOSE_BRACKET] + z);
    EscapeFront(CLOSE_BRACKET, z);
    OneBracket(CLOSE_BRACKET);
    Escaped(x);
    Escaped(z);
    var e := Escape(s);
    assert e == Escape(x) + ([CLOSE_BRACKET] + Escape(z));
    assert e[..|Escape(x)|] == Escape(x) && e[|Escape(x)| + 1..] == Escape(z);
    assert LeaksAt(e, |Escape(x)|);
  }

  // ----- objects with such a string -----

  /** Braces around something that closes one bracket too many. */
  ghost predicate Leaky(obj: bytes) {
    |obj| >= 2 && obj[0] == OPEN_BRACE && obj[|obj| - 1] == CLOSE_BRACE && Leaks(obj[1..|obj| - 1])
  }

  /** One item leaks, and the brackets of all others close each other. */
  ghost predicate LevelBut(items: seq<Item>, j: nat) {
    && j < |items| && Leaks(items[j].token) && Bracketless(items[j].after)
    && forall i :: 0 <= i < |items| && i != j ==> Level(items[i])
  }

  lemma ItemsLeak(items: seq<Item>, j: nat)
    requires LevelBut(items, j)
    ensures Leaks(ItemsText(items))
  {
    hide Even, Leaks, ItemsText, Quoted;
    var before, it, later := items[..j], items[j], items[j + 1..];
    assert AllLevel(before) && AllLevel(later);
    hide Level, AllLevel;
    assert items == before + ([it] + later);
    ItemsConcat(before, [it] + later);
    ItemsConcat([it], later);
    OneItem(it.token, it.after);
    ItemsEven(before);
    ItemsEven(later);
    BracketlessIsEven([QUOTE]);
    BracketlessIsEven(it.after);
    EvenConcat(ItemsText(before), [QUOTE]);
    EvenConcat([QUOTE], it.after);
    EvenConcat([QUOTE] + it.after, ItemsText(later));
    var a, b := ItemsText(before) + [QUOTE], [QUOTE] + it.after + ItemsText(later);
    LeakBehind(a, it.token, b);
    QuotedAround(it.token, it.after, ItemsText(before), ItemsText(later));
  }

  lemma QuotedAround(t: bytes, after: bytes, front: bytes, back: bytes)
    ensures front + ((Quoted(t) + after) + back) == (front + [QUOTE]) + t + ([QUOTE] + after + back)
  {
  }

  lemma ObjectLeaks(items: seq<Item>, j: nat)
    requires LevelBut(items, j)
    ensures Leaky(ObjectText(items))
  {
    hide LevelBut, ItemsText, Even, Leaks;
    ItemsLeak(items, j);
    var obj := ObjectText(items);
    assert BEGIN == [OPEN_BRACE, 10, 32, 32, 32, 32, 32, 32] && END == [CLOSE_BRACE];
    var inside := BEGIN[1..];
    assert Bracketless(inside);
    BracketlessIsEven(inside);
    BracketlessIsEven([]);
    LeakBehind(inside, ItemsText(items), []);
    assert obj[1..|obj| - 1] == inside + ItemsText(items) + [];
  }

  /** One string of the channel closes one bracket too many, the other none. */
  ghost predicate LeakyChannel(d: ChannelDef) { (Leaks(d.name) && Even(d.schema)) || (Even(d.name) && Leaks(d.schema)) }

  lemma ChannelLeaks(d: ChannelDef)
    requires LeakyChannel(d)
    ensures Leaky(ObjectText(ChannelItems(d)))
  {
    hide Escape, Hex, Digits, ChannelItems, Even, Leaks, Text, Bracketless, ObjectText, Leaky;
    ChannelTokens(d);
    KeysAreLevel();
    HexLevel(d.metadata);
    SepLevel();
    NumberLevel(d.id, NEXT);
    NumberLevel(d.layer, NEXT);
    NumberLevel(d.compression, NEXT);
    NumberLevel(d.chunkSize, NEXT);
    NumberLevel(d.flushMs, NEXT);
    if Leaks(d.name) && Even(d.schema) {
      EscapeLeaks(d.name);
      Escaped(d.schema);
      ObjectLeaks(ChannelItems(d), 2);
    } else {
      Escaped(d.name);
      EscapeLeaks(d.schema);
      ObjectLeaks(ChannelItems(d), 8);
    }
  }

  // ----- the end of the list is never found -----

  lemma {:induction false} PlainPassesAt(x: bytes, y: bytes, depth: int)
    requires Bracketless(x)
    ensures ArrayEnd(x + y, depth) == Shifted(ArrayEnd(y, depth), |x|)
    decreases |x|
  {
    if x == [] {
      assert x + y == y;
    } else {
      assert (x + y)[0] == x[0] && !Bracket(x[0]) && (x + y)[1..] == x[1..] + y;
      PlainPassesAt(x[1..], y, depth);
    }
  }

  lemma BoxPassesAt(obj: bytes, y: bytes, depth: nat)
    requires Boxed(obj)
    ensures ArrayEnd(obj + y, depth) == Shifted(ArrayEnd(y, depth), |obj|)
  {
    hide Balanced;
    var inner, close := obj[1..|obj| - 1], [CLOSE_BRACE] + y;
    assert obj + y == [OPEN_BRACE] + (inner + close);
    assert (obj + y)[1..] == inner + close;
    EndPasses(inner, close, depth + 1, 0, 0);
    assert close[1..] == y;
  }

  lemma LeakShape(obj: bytes, y: bytes) returns (p: bytes, q: bytes)
    requires Leaky(obj)
    ensures Even(p) && Even(q)
    ensures obj == [OPEN_BRACE] + (p + ([CLOSE_BRACKET] + (q + [CLOSE_BRACE])))
    ensures obj + y == [OPEN_BRACE] + (p + ([CLOSE_BRACKET] + (q + ([CLOSE_BRACE] + y))))
  {
    hide Even;
    var inner := obj[1..|obj| - 1];
    var i: nat :| LeaksAt(inner, i);
    p, q := inner[..i], inner[i + 1..];
    assert inner == p + ([CLOSE_BRACKET] + q);
    assert obj == [OPEN_BRACE] + (inner + [CLOSE_BRACE]);
    Around(p, q, [CLOSE_BRACE]);
    Around(p, q, [CLOSE_BRACE] + y);
    Seqs.Regroup([OPEN_BRACE], inner + [CLOSE_BRACE], y);
    Seqs.Regroup(inner, [CLOSE_BRACE], y);
  }

  lemma Around(p: bytes, q: bytes, z: bytes)
    ensures (p + ([CLOSE_BRACKET] + q)) + z == p + ([CLOSE_BRACKET] + (q + z))
  {
  }

  lemma OneBracketPasses(b: byte, y: bytes, depth: int)
    requires Bracket(b)
    ensures var d := if b == OPEN_BRACKET || b == OPEN_BRACE then depth + 1 else depth - 1;
            !(b == CLOSE_BRACKET && d == 0) ==> ArrayEnd([b] + y, depth) == Shifted(ArrayEnd(y, d), 1)
  {
    assert ([b] + y)[1..] == y;
  }

  /** Behind such an object the search is one level too low. */
  lemma LeakPasses(obj: bytes, y: bytes)
    requires Leaky(obj)
    ensures ArrayEnd(obj + y, 1) == Shifted(ArrayEnd(y, 0), |obj|)
  {
    hide Balanced, ArrayEnd, Leaky;
    var p, q := LeakShape(obj, y);
    var close := [CLOSE_BRACE] + y;
    var behind := [CLOSE_BRACKET] + (q + close);
    OneBracketPasses(OPEN_BRACE, p + behind, 1);
    EndPasses(p, behind, 2, 0, 0);
    OneBracketPasses(CLOSE_BRACKET, q + close, 2);
    EndPasses(q, close, 1, 0, 0);
    OneBracketPasses(CLOSE_BRACE, y, 1);
  }

  lemma {:induction false} ListEndsAt(objects: seq<bytes>, y: bytes, depth: nat)
    requires AllBoxed(objects)
    ensures ArrayEnd(ListText(objects) + y, depth) == Shifted(ArrayEnd(y, depth), |ListText(objects)|)
    decreases |objects|
  {
    hide Text, Comma, Boxed, ArrayEnd, Bracketless;
    if objects == [] {
      assert ListText(objects) + y == y;
    } else {
      var rest := ListText(objects[1..]) + y;
      ListCons(objects, y);
      ListCons(objects, []);
      Commas(objects);
      PlainPassesAt(Text("    "), objects[0] + (Comma(objects) + rest), depth);
      BoxPassesAt(objects[0], Comma(objects) + rest, depth);
      PlainPassesAt(Comma(objects), rest, depth);
      ListEndsAt(objects[1..], y, depth);
    }
  }

  /** All objects close their brackets but one, which closes one too many. */
  ghost predicate BoxedBut(objects: seq<bytes>, k: nat) {
    k < |objects| && Leaky(objects[k]) && forall i :: 0 <= i < |objects| && i != k ==> Boxed(objects[i])
  }

  lemma ButOne(objects: seq<bytes>, k: nat)
    requires BoxedBut(objects, k)
    ensures objects != []
    ensures k == 0 ==> Leaky(objects[0]) && AllBoxed(objects[1..])
    ensures k > 0 ==> Boxed(objects[0]) && BoxedBut(objects[1..], k - 1)
  {
    hide Boxed, Leaky;
    assert forall i :: 0 <= i < |objects| - 1 ==> objects[1..][i] == objects[i + 1];
  }

  lemma ListPieces(objects: seq<bytes>)
    requires objects != []
    ensures Bracketless(Text("    ")) && Bracketless(Comma(objects))
    ensures |ListText(objects)| == |Text("    ")| + |objects[0]| + |Comma(objects)| + |ListText(objects[1..])|
  {
    hide Text;
    Commas(objects);
  }

  lemma {:induction false} LeakyListEnds(objects: seq<bytes>, k: nat, y: bytes)
    requires BoxedBut(objects, k)
    ensures ArrayEnd(ListText(objects) + y, 1) == Shifted(ArrayEnd(y, 0), |ListText(objects)|)
    decreases |objects|
  {
    hide Text, Comma, Boxed, Leaky, ArrayEnd, Bracketless, BoxedBut, AllBoxed, ListText, Separates;
    ButOne(objects, k);
    var rest := ListText(objects[1..]) + y;
    ListCons(objects, y);
    ListPieces(objects);
    PlainPassesAt(Text("    "), objects[0] + (Comma(objects) + rest), 1);
    if k == 0 {
      LeakPasses(objects[0], Comma(objects) + rest);
      PlainPassesAt(Comma(objects), rest, 0);
      ListEndsAt(objects[1..], y, 0);
    } else {
      BoxPassesAt(objects[0], Comma(objects) + rest, 1);
      PlainPassesAt(Comma(objects), rest, 1);
      LeakyListEnds(objects[1..], k - 1, y);
    }
  }

  lemma NoMoreBrackets()
    ensures ArrayEnd(Text("\n}\n"), -1) == None
  {
    var t := Text("\n}\n");
    assert t == [10, CLOSE_BRACE, 10];
    assert t[1..] == [CLOSE_BRACE, 10] && t[1..][1..] == [10] && t[1..][1..][1..] == [];
  }

  /** What stands behind the channels: from one level too low no bracket closes the list. */
  lemma NeverEnds(m: SessionManifest)
    requires NestedNames(m.segments)
    ensures ArrayEnd(SegmentsText(m), 0) == None
  {
    hide ArrayEnd, Text, ListText, NestedNames, SegmentTexts, Bracketless;
    var list := ListText(SegmentTexts(m.segments));
    SegmentsApart(m);
    SegmentsBoxed(m.segments);
    PlainPassesAt(Text("  "), [CLOSE_BRACKET] + (SegmentsKey() + ([OPEN_BRACKET] + ([10] + (list + LastLines())))), 0);
    OneBracketPasses(CLOSE_BRACKET, SegmentsKey() + ([OPEN_BRACKET] + ([10] + (list + LastLines()))), 0);
    PlainPassesAt(SegmentsKey(), [OPEN_BRACKET] + ([10] + (list + LastLines())), -1);
    OneBracketPasses(OPEN_BRACKET, [10] + (list + LastLines()), -1);
    PlainPassesAt([10], list + LastLines(), 0);
    ListEndsAt(SegmentTexts(m.segments), LastLines(), 0);
    PlainPassesAt(Text("  "), [CLOSE_BRACKET] + Text("\n}\n"), 0);
    OneBracketPasses(CLOSE_BRACKET, Text("\n}\n"), 0);
    NoMoreBrackets();
  }

  function SegmentsKey(): bytes { Text(",\n  ") + Quoted(SEGMENTS) + Text(": ") }

  function LastLines(): bytes { Text("  ") + ([CLOSE_BRACKET] + Text("\n}\n")) }

  lemma SegmentsApart(m: SessionManifest)
    ensures SegmentsText(m) ==
            Text("  ") + ([CLOSE_BRACKET] + (SegmentsKey() + ([OPEN_BRACKET] + ([10] + (ListText(SegmentTexts(m.segments)) + LastLines())))))
    ensures Bracketless(Text("  ")) && Bracketless(SegmentsKey()) && Bracketless([10])
  {
    hide ListText, SegmentTexts, Text;
    OneItem(SEGMENTS, Text(": [\n"));
    Literals();
    Closings(ItemsText([Item(SEGMENTS, Text(": [\n"))]) + (ListText(SegmentTexts(m.segments)) + Text("  ]\n}\n")));
    var q, list := Quoted(SEGMENTS), ListText(SegmentTexts(m.segments));
    assert (q + (Text(": ") + [OPEN_BRACKET, 10])) + (list + LastLines()) == q + (Text(": ") + ([OPEN_BRACKET] + ([10] + (list + LastLines()))));
  }

  lemma Literals()
    ensures Text(": [\n") == Text(": ") + [OPEN_BRACKET, 10]
    ensures Bracketless(Text("  ")) && Bracketless(SegmentsKey()) && Bracketless([10])
  {
    hide Text, SegmentsKey, Key, Ending;
    ColonOpens();
    Separator("  ");
    Separator(",\n  ");
    TopKeys();
    WordyIsKey(SEGMENTS);
    KeyIsBracketless(SEGMENTS, Text(",\n  "), Text(": "));
    SegmentsKeyIs();
  }

  lemma ColonOpens()
    ensures Text(": [\n") == Text(": ") + [OPEN_BRACKET, 10] && Bracketless(Text(": ")) && Bracketless([10])
  {
  }

  lemma SegmentsKeyIs()
    ensures SegmentsKey() == Text(",\n  ") + Quoted(SEGMENTS) + Text(": ")
  {
  }

  lemma KeyIsBracketless(key: bytes, a: bytes, b: bytes)
    requires Key(key) && Bracketless(a) && Bracketless(b)
    ensures Bracketless(a + Quoted(key) + b)
  {
    assert Bracketless(key);
  }

  // ----- so every object to the end of the text is a channel -----

  lemma {:induction false} BracelessPass(x: bytes, y: bytes, depth: int)
    requires Lacks(x, OPEN_BRACE) && Lacks(x, CLOSE_BRACE)
    ensures Objects(x + y, depth, None) == Objects(y, depth, None)
    decreases |x|
  {
    if x == [] {
      assert x + y == y;
    } else {
      assert (x + y)[0] == x[0] && (x + y)[1..] == x[1..] + y;
      BracelessPass(x[1..], y, depth);
    }
  }

  lemma LeakTaken(obj: bytes, y: bytes)
    requires Leaky(obj)
    ensures Objects(obj + y, 0, None) == [obj] + Objects(y, 0, None)
  {
    hide Balanced, Leaky;
    var p, q := LeakShape(obj, y);
    var close := [CLOSE_BRACE] + y;
    var behind := [CLOSE_BRACKET] + (q + close);
    assert (obj + y)[1..] == p + behind;
    ObjectGrows(p, behind, [OPEN_BRACE], 0, 0);
    assert behind[1..] == q + close;
    ObjectGrows(q, close, [OPEN_BRACE] + p + [CLOSE_BRACKET], 0, 0);
    assert close[1..] == y;
    assert (([OPEN_BRACE] + p + [CLOSE_BRACKET]) + q) + [CLOSE_BRACE] == obj;
  }

  lemma {:induction false} LeakyListSplits(objects: seq<bytes>, y: bytes)
    requires forall i :: 0 <= i < |objects| ==> Boxed(objects[i]) || Leaky(objects[i])
    ensures Objects(ListText(objects) + y, 0, None) == objects + Objects(y, 0, None)
    decreases |objects|
  {
    hide Text, Comma, Boxed, Leaky, Objects, Bracketless;
    if objects == [] {
      assert ListText(objects) + y == y;
    } else {
      var rest := ListText(objects[1..]) + y;
      ListCons(objects, y);
      Commas(objects);
      ObjectsPass(Text("    "), objects[0] + (Comma(objects) + rest), 0);
      if Boxed(objects[0]) {
        ObjectTaken(objects[0], Comma(objects) + rest);
      } else {
        LeakTaken(objects[0], Comma(objects) + rest);
      }
      ObjectsPass(Comma(objects), rest, 0);
      LeakyListSplits(objects[1..], y);
      assert objects == [objects[0]] + objects[1..];
      Seqs.Regroup([objects[0]], objects[1..], Objects(y, 0, None));
    }
  }

  lemma LastBrace()
    ensures Objects(LastLines(), 0, None) == []
  {
    var t, front := LastLines(), Text("  ") + [CLOSE_BRACKET, 10];
    assert t == front + [CLOSE_BRACE, 10];
    BracelessPass(front, [CLOSE_BRACE, 10], 0);
    assert [CLOSE_BRACE, 10][1..] == [10] && [10][1..] == [];
  }

  lemma SegmentsFollow(m: SessionManifest)
    requires NestedNames(m.segments)
    ensures Objects(SegmentsText(m), 0, None) == SegmentTexts(m.segments)
  {
    hide Objects, ListText, SegmentTexts, NestedNames, Boxed;
    var list := SegmentTexts(m.segments);
    SegmentsApart(m);
    SegmentsBoxed(m.segments);
    var front := Text("  ") + [CLOSE_BRACKET] + SegmentsKey() + [OPEN_BRACKET, 10];
    Braceless();
    assert SegmentsText(m) == front + (ListText(list) + LastLines());
    BracelessPass(front, ListText(list) + LastLines(), 0);
    ListSplits(list, LastLines());
    LastBrace();
    assert list + [] == list;
  }

  lemma Braceless()
    ensures var front := Text("  ") + [CLOSE_BRACKET] + SegmentsKey() + [OPEN_BRACKET, 10];
            Lacks(front, OPEN_BRACE) && Lacks(front, CLOSE_BRACE)
  {
    hide Text, SegmentsKey;
    Literals();
  }

  /** The manifest closes one bracket too many in one string of channel k, and otherwise what it opens. */
  ghost predicate Unclosed(m: SessionManifest, k: nat) {
    && k < |m.channels| && LeakyChannel(m.channels[k]) && NestedNames(m.segments)
    && forall i :: 0 <= i < |m.channels| && i != k ==> Even(m.channels[i].name) && Even(m.channels[i].schema)
  }

  lemma ChannelsBoxedBut(m: SessionManifest, k: nat)
    requires Unclosed(m, k)
    ensures BoxedBut(ChannelTexts(m.channels), k)
  {
    hide LeakyChannel, Even, ChannelItems, ObjectText, Boxed, Leaky;
    ChannelLeaks(m.channels[k]);
    forall i | 0 <= i < |m.channels| && i != k
      ensures Boxed(ChannelTexts(m.channels)[i])
    {
      ChannelLevel(m.channels[i]);
      ObjectIsBoxed(ChannelItems(m.channels[i]));
    }
  }

  lemma AllObjects(m: SessionManifest, k: nat, key: bytes, j: nat)
    requires Unclosed(m, k) && Wordy(key) && (j == 1 || j == 5) && FirstAt(TopItems(m), j, key)
    ensures ObjectsAt(ManifestText(m), key) == ChannelTexts(m.channels) + SegmentTexts(m.segments)
  {
    hide After, Quoted, ListText, Text, ManifestText, TopItems, ChannelTexts, SegmentTexts, Wordy, FirstAt, ArrayEnd, Objects, SegmentsText, NestedNames, Boxed, Leaky, LeakyChannel, Bracketless;
    ChannelsSought(m, key, j);
    ChannelsBoxedBut(m, k);
    var objects := ChannelTexts(m.channels);
    SegmentsApart(m);
    PlainPassesAt([10], TopTail(m), 1);
    LeakyListEnds(objects, k, SegmentsText(m));
    NeverEnds(m);
    ObjectsPass([10], TopTail(m), 0);
    LeakyListSplits(objects, SegmentsText(m));
    SegmentsFollow(m);
  }

  // ----- segments read as channels -----

  /** No key of a segment. */
  ghost predicate Strange(key: bytes) {
    Wordy(key) && key != FILENAME && key != SEGMENT_INDEX && key != START_NS && key != END_NS && key != SIZE_BYTES
  }

  lemma StrangeKeys()
    ensures Strange(ID) && Strange(NAME) && Strange(LAYER) && Strange(COMPRESSION) && Strange(CHUNK_SIZE_BYTES) && Strange(CHUNK_FLUSH_MS)
    ensures Strange(SCHEMA) && Strange(USER_METADATA_HEX)
  {
    hide Wordy, Text, Ending;
    KeyLengths();
    TopKeys();
    ChannelKeys();
  }

  lemma StrangeStops(s: SegmentEntry, key: bytes)
    requires Strange(key)
    ensures var items := SegmentItems(s);
            Key(key) && (if Ending(s.filename) == key then FirstAt(items, 1, key) else Free(items, key))
  {
    hide Escape, Digits, Ending, SegmentItems, Text;
    SegmentKeys();
    SegmentTokens(s);
    EscapedFacts(s.filename);
    WordyIsKey(key);
  }

  lemma PassSegment(s: SegmentEntry, key: bytes)
    requires Key(key) && Free(SegmentItems(s), key)
    ensures After(ObjectText(SegmentItems(s)), Quoted(key)) == None
  {
    hide After, Quoted, Free, ItemsText, Quoteless, SegmentItems, ObjectText, Key, AllFair;
    var items := SegmentItems(s);
    SegmentFair(s);
    BeginIsQuoteless();
    ObjectApart(items, []);
    SkipQuoteless(BEGIN, ItemsText(items) + (END + []), key);
    PassItems(items, END + [], key);
    SkipQuoteless(END, [], key);
    NothingBehind(key);
    assert ObjectText(items) + [] == ObjectText(items);
  }

  lemma StrangeNumber(s: SegmentEntry, key: bytes)
    requires Strange(key)
    ensures NumberAt(ObjectText(SegmentItems(s)), key) == if Ending(s.filename) == key then s.info.index else 0
  {
    hide After, Quoted, AllFair, FirstAt, Leads, ItemsText, SegmentItems, Digits, Separates, Ending, Key, StoUll, SkipBlanks, Strange, Free;
    var items := SegmentItems(s);
    StrangeStops(s, key);
    if Ending(s.filename) == key {
      Seqs.Regroup(BEGIN, ItemsText(items), END);
      Separators();
      SepFacts(NEXT);
      SegmentFair(s);
      SegmentTokens(s);
      SegmentLeads(s);
      BeginIsQuoteless();
      NumberIn(BEGIN, items, END, 1, 2, key, s.info.index, NEXT);
    } else {
      PassSegment(s, key);
    }
  }

  lemma StrangeString(s: SegmentEntry, key: bytes)
    requires Strange(key)
    ensures StringAt(ObjectText(SegmentItems(s)), key) == if Ending(s.filename) == key then START_NS else []
  {
    hide After, Quoted, AllFair, FirstAt, Leads, ItemsText, SegmentItems, Digits, Separates, Ending, Key, StringValue, Strange, Free, Escape;
    var items := SegmentItems(s);
    StrangeStops(s, key);
    if Ending(s.filename) == key {
      Seqs.Regroup(BEGIN, ItemsText(items), END);
      Separators();
      SepFacts(NEXT);
      SegmentFair(s);
      SegmentTokens(s);
      SegmentLeads(s);
      BeginIsQuoteless();
      StartEscapes();
      DigitsArePlain(s.info.index);
      LacksConcat(Digits(s.info.index), NEXT, QUOTE);
      StringIn(BEGIN, items, END, 1, 2, key, Digits(s.info.index) + NEXT, START_NS);
    } else {
      PassSegment(s, key);
    }
  }

  lemma StartEscapes()
    ensures Escape(START_NS) == START_NS
  {
    hide Escape;
    SegmentKeys();
    KeyEscapes(START_NS);
  }

  /** What reading a printed segment as a channel gives: nothing, but for what stands behind a file name that ends like a key. */
  function Stray(s: SegmentEntry): ChannelDef {
    var n, i := Ending(s.filename), s.info.index;
    ChannelDef(
      if n == ID then Low16(i) else 0, if n == NAME then START_NS else [],
      if n == LAYER then Low8(i) else 0, if n == COMPRESSION then Low8(i) else 0,
      if n == CHUNK_SIZE_BYTES then i else 0, if n == CHUNK_FLUSH_MS then i else 0,
      if n == SCHEMA then START_NS else [], if n == USER_METADATA_HEX then Unhex(START_NS) else [])
  }

  lemma NoHex()
    ensures Unhex([]) == []
  {
  }

  lemma SegmentAsChannel(s: SegmentEntry)
    ensures ParsedChannel(ObjectText(SegmentItems(s))) == Stray(s)
  {
    hide NumberAt, StringAt, ObjectText, SegmentItems, Ending, Strange, Text, Unhex;
    StrangeKeys();
    NoHex();
    StrangeNumber(s, ID);
    StrangeString(s, NAME);
    StrangeNumber(s, LAYER);
    StrangeNumber(s, COMPRESSION);
    StrangeNumber(s, CHUNK_SIZE_BYTES);
    StrangeNumber(s, CHUNK_FLUSH_MS);
    StrangeString(s, SCHEMA);
    StrangeString(s, USER_METADATA_HEX);
  }

  function Strays(segments: seq<SegmentEntry>): (r: seq<ChannelDef>)
    ensures |r| == |segments|
  {
    if segments == [] then [] else Strays(segments[..|segments| - 1]) + [Stray(segments[|segments| - 1])]
  }

  lemma {:induction false} SegmentsAsChannels(segments: seq<SegmentEntry>)
    ensures ParsedChannels(SegmentTexts(segments)) == Strays(segments)
    decreases |segments|
  {
    hide SegmentItems, ObjectText, ParsedChannel, Stray;
    if segments != [] {
      var n := |segments| - 1;
      assert SegmentTexts(segments)[..n] == SegmentTexts(segments[..n]);
      SegmentsAsChannels(segments[..n]);
      SegmentAsChannel(segments[n]);
    }
  }

  lemma {:induction false} ParsedConcat(a: seq<bytes>, b: seq<bytes>)
    ensures ParsedChannels(a + b) == ParsedChannels(a) + ParsedChannels(b)
    ensures ParsedSegments(a + b) == ParsedSegments(a) + ParsedSegments(b)
    decreases |b|
  {
    hide ParsedChannel, ParsedSegment;
    if b == [] {
      assert a + b == a;
    } else {
      var n := |b| - 1;
      assert (a + b)[..|a + b| - 1] == a + b[..n];
      ParsedConcat(a, b[..n]);
      Seqs.Regroup(ParsedChannels(a), ParsedChannels(b[..n]), [ParsedChannel(b[n])]);
      Seqs.Regroup(ParsedSegments(a), ParsedSegments(b[..n]), [ParsedSegment(b[n])]);
    }
  }

  // ----- the whole manifest -----

  /** What reading such a manifest's text gives: its segments once more, as channels. */
  function UnclosedAsRead(m: SessionManifest): SessionManifest {
    var n := Ending(m.version);
    SessionManifest(
      m.version, m.id, if n == CREATED_AT_NS then 0 else m.createdAtNs, ChannelsAsRead(m.channels) + Strays(m.segments),
      if n == SEGMENTS then AllMistaken(m.channels) + SegmentsAsRead(m.segments) else SegmentsAsRead(m.segments))
  }

  lemma UnclosedReads(m: SessionManifest, k: nat)
    requires |m.id| == 16 && (forall i :: 0 <= i < |m.segments| ==> m.segments[i].info.size <= U64_MAX)
    requires Unclosed(m, k) && (Ending(m.version) != SEGMENTS ==> InSight(m.channels))
    ensures ParsedManifest(ManifestText(m)) == UnclosedAsRead(m)
  {
    hide NumberAt, StringAt, ObjectsAt, ManifestText, ParsedChannels, ParsedSegments, ParsedId, ChannelTexts, SegmentTexts, NestedNames, LeakyChannel, Even, InSight, Ending, FirstAt,
      Wordy, Text, TopItems, ChannelsAsRead, SegmentsAsRead, AllMistaken, Free, Strays;
    TopKeys();
    TopReads(m);
    TopStops(m);
    AllObjects(m, k, CHANNELS, if Ending(m.version) == CHANNELS then 1 else 5);
    ParsedConcat(ChannelTexts(m.channels), SegmentTexts(m.segments));
    ChannelsRead(m.channels);
    SegmentsAsChannels(m.segments);
    SegmentsRead(m.segments);
    if Ending(m.version) == SEGMENTS {
      AllObjects(m, k, SEGMENTS, 1);
      ChannelsAsSegments(m.channels);
    } else {
      SegmentsFound(m);
    }
  }

  /** So it is read back as it was exactly when it lists no segments, and nothing else in it is hidden. */
  lemma UnclosedReadsBack(m: SessionManifest, k: nat)
    requires |m.id| == 16 && (forall i :: 0 <= i < |m.segments| ==> m.segments[i].info.size <= U64_MAX)
    requires Unclosed(m, k) && (Ending(m.version) != SEGMENTS ==> InSight(m.channels))
    ensures ParsedManifest(ManifestText(m)) == m <==> m.segments == [] && Legible(m)
  {
    hide ManifestText, ParsedManifest, Unshadowed, InFull, Unclosed, InSight, Ending, Stray, ChannelAsRead, SegmentAsRead, Mistaken;
    UnclosedReads(m, k);
    ChannelsSame(m.channels);
    SegmentsSame(m.segments);
    var channels := ChannelsAsRead(m.channels);
    assert channels + [] == channels;
    assert |channels + Strays(m.segments)| == |channels| + |m.segments|;
  }
}
