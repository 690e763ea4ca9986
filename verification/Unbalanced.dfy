/** Why the strings of a manifest must close the brackets they open: a brace that closes none cuts its channel short. */
module Unbalanced {
  import opened Bytes
  import opened Outcomes
  import opened Recording
  import opened Json
  import opened Manifest
  import opened KeySearch
  import opened ObjectReading
  import opened Bracketing
  import opened ManifestReading
  import Seqs

  /** What is left of a channel's object: everything up to the brace that its name starts with. */
  function Cut(d: ChannelDef): bytes
    requires |ChannelItems(d)| == 11
  {
    BEGIN + (ItemsText(ChannelItems(d)[..2]) + [QUOTE, CLOSE_BRACE])
  }

  lemma CutIsPrefix(d: ChannelDef) returns (rest: bytes)
    requires d.name != [] && d.name[0] == CLOSE_BRACE
    ensures |ChannelItems(d)| == 11 && ObjectText(ChannelItems(d)) == Cut(d) + rest
  {
    hide ChannelItems, Escape, Text, ItemsText;
    ChannelTokens(d);
    var items, name := ChannelItems(d), Escape(d.name[1..]);
    assert items == items[..2] + ([items[2]] + items[3..]);
    ItemsConcat(items[..2], [items[2]] + items[3..]);
    ItemsConcat([items[2]], items[3..]);
    OneItem(Escape(d.name), NEXT);
    EscapeFront(CLOSE_BRACE, d.name[1..]);
    assert d.name == [CLOSE_BRACE] + d.name[1..];
    BraceStays();
    rest := name + [QUOTE] + NEXT + ItemsText(items[3..]) + END;
    assert Escape(d.name) == [CLOSE_BRACE] + name;
  }

  lemma BraceStays()
    ensures EscapeOne(CLOSE_BRACE) == [CLOSE_BRACE]
  {
  }

  lemma CutIsBoxed(d: ChannelDef)
    ensures |ChannelItems(d)| == 11 && Boxed(Cut(d))
  {
    hide ChannelItems, Escape, Digits, ItemsText, Even, Text, Separates;
    ChannelTokens(d);
    var items, obj := ChannelItems(d), Cut(d);
    Bare(d);
    var inside := BEGIN[1..] + (ItemsText(items[..2]) + [QUOTE]);
    BeginBrace();
    assert obj[1..|obj| - 1] == inside;
    BracketlessIsEven(inside);
  }

  lemma BeginBrace()
    ensures BEGIN != [] && BEGIN[0] == OPEN_BRACE && Bracketless(BEGIN[1..])
  {
    assert BEGIN == [OPEN_BRACE, 10, 32, 32, 32, 32, 32, 32];
  }

  lemma Bare(d: ChannelDef)
    ensures |ChannelItems(d)| == 11 && Bracketless(BEGIN[1..] + (ItemsText(ChannelItems(d)[..2]) + [QUOTE]))
  {
    hide ChannelItems, Escape, Digits, Text, Separates, ItemsText;
    ChannelTokens(d);
    Separators();
    BeginBrace();
    DigitsArePlain(d.id);
    KeysAreBare();
    SepIsBare(NEXT);
    var items := ChannelItems(d);
    assert items[..2] == [items[0]] + [items[1]];
    ItemsConcat([items[0]], [items[1]]);
    OneItem(ID, items[0].after);
    OneItem(NAME, IS);
  }

  lemma SepIsBare(sep: bytes)
    requires Separates(sep)
    ensures Bracketless(sep)
  {
  }

  lemma KeysAreBare()
    ensures Bracketless(ID) && Bracketless(NAME)
  {
  }

  /** The layer is not in what is left. */
  lemma CutHasNoLayer(d: ChannelDef)
    ensures |ChannelItems(d)| == 11 && NumberAt(Cut(d), LAYER) == 0
  {
    hide ChannelItems, ItemsText, Text, Fair, Ending, Wordy;
    ChannelTokens(d);
    ChannelKeys();
    TopKeys();
    WordyIsKey(LAYER);
    ChannelFair(d);
    ChannelEndings(d);
    KeyLengths();
    BeginIsQuoteless();
    var two := ChannelItems(d)[..2];
    SkipQuoteless(BEGIN, ItemsText(two) + [QUOTE, CLOSE_BRACE], LAYER);
    PassItems(two, [QUOTE, CLOSE_BRACE], LAYER);
    TooShort(LAYER);
  }

  lemma TooShort(key: bytes)
    requires |key| > 0
    ensures After([QUOTE, CLOSE_BRACE], Quoted(key)) == None
  {
    var s, rest := [QUOTE, CLOSE_BRACE], [CLOSE_BRACE];
    assert |Quoted(key)| > |s|;
    assert s[1..] == rest && rest[1..] == [];
    assert After(rest, Quoted(key)) == None;
  }

  /** The first object of a list that starts with boxed text is that text. */
  lemma FirstObject(obj: bytes, rest: bytes)
    requires Boxed(obj)
    ensures var r := [10] + (Text("    ") + (obj + rest));
            var end := ArrayEnd(r, 1);
            var objects := Objects(if end.Some? && end.value <= |r| then r[..end.value] else r, 0, None);
            objects != [] && objects[0] == obj
  {
    hide Text, ArrayEnd, Objects, Boxed, Bracketless;
    var gap := [10] + Text("    ");
    var r := gap + (obj + rest);
    assert r == [10] + (Text("    ") + (obj + rest));
    GapIsBare();
    PlainPasses(gap, obj + rest);
    EndPassesBox(obj, rest);
    var end := ArrayEnd(r, 1);
    var text := if end.Some? && end.value <= |r| then r[..end.value] else r;
    var more := text[|gap| + |obj|..];
    assert text == gap + (obj + more);
    ObjectsPass(gap, obj + more, 0);
    ObjectTaken(obj, more);
  }

  lemma GapIsBare()
    ensures Bracketless([10] + Text("    "))
  {
  }

  lemma {:induction false} FirstParsed(objects: seq<bytes>)
    requires objects != []
    ensures ParsedChannels(objects) != [] && ParsedChannels(objects)[0] == ParsedChannel(objects[0])
    decreases |objects|
  {
    hide ParsedChannel;
    if |objects| > 1 {
      FirstParsed(objects[..|objects| - 1]);
    }
  }

  /** A manifest whose first channel's name starts with a closing brace comes back with that channel's layer 0. */
  lemma BraceCutsChannel(m: SessionManifest)
    requires m.channels != [] && m.channels[0].name != [] && m.channels[0].name[0] == CLOSE_BRACE
    ensures var read := ParsedManifest(ManifestText(m)).channels; read != [] && read[0].layer == 0
  {
    hide After, Quoted, ListText, Text, TopItems, ChannelTexts, ItemsText, Quoteless, Wordy, AllFair, ArrayEnd, Objects, ParsedChannels, ChannelItems, Ending, NumberAt,
      StringAt, FirstAt, SegmentsText, ParsedSegments, ParsedId, Boxed, Cut, ManifestText;
    var d, objects := m.channels[0], ChannelTexts(m.channels);
    TopStops(m);
    TopKeys();
    ChannelsSought(m, CHANNELS, if Ending(m.version) == CHANNELS then 1 else 5);
    ListCons(objects, SegmentsText(m));
    var rest := CutIsPrefix(d);
    var after := Comma(objects) + (ListText(objects[1..]) + SegmentsText(m));
    Seqs.Regroup(Cut(d), rest, after);
    assert [10] + TopTail(m) == [10] + (Text("    ") + (Cut(d) + (rest + after)));
    CutIsBoxed(d);
    FirstObject(Cut(d), rest + after);
    FirstParsed(ObjectsAt(ManifestText(m), CHANNELS));
    CutHasNoLayer(d);
  }
}
