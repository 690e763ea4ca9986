/** Reading a printed manifest back, and exactly when it comes back as it was. */
module ManifestReading {
  import opened Bytes
  import opened Outcomes
  import opened Recording
  import opened Json
  import opened Manifest
  import opened KeySearch
  import opened ObjectReading
  import opened Bracketing
  import Seqs

  // ----- the fields in front of the lists -----

  lemma TopFair(m: SessionManifest)
    ensures AllFair(TopItems(m)) && Quoteless(Text("{\n  "))
  {
    hide Wordy, Separates, Slashed, Key, Ending, NumberField, StringField, AllFair, Escape, Hex, Text;
    Separators();
    TopKeys();
    EscapedFacts(m.version);
    HexIsPlain(m.id);
    var a, b := StringField(RECORDER_VERSION, Escape(m.version), NEXT_TOP), StringField(ID, Hex(m.id), NEXT_TOP);
    var e, f := NumberField(CREATED_AT_NS, m.createdAtNs, NEXT_TOP), [Item(CHANNELS, Text(": [\n"))];
    StringFair(RECORDER_VERSION, Escape(m.version), NEXT_TOP);
    StringFair(ID, Hex(m.id), NEXT_TOP);
    NumberFair(CREATED_AT_NS, m.createdAtNs, NEXT_TOP);
    ArrayItemIsFair(CHANNELS);
    FairConcat(a, b);
    FairConcat(a + b, e);
    FairConcat(a + b + e, f);
  }

  lemma ArrayItemIsFair(key: bytes)
    requires Wordy(key)
    ensures AllFair([Item(key, Text(": [\n"))]) && Quoteless(Text("{\n  "))
  {
  }

  lemma TopTokens(m: SessionManifest)
    ensures var items := TopItems(m);
            && |items| == 6
            && items[0] == Item(RECORDER_VERSION, IS) && items[1] == Item(Escape(m.version), NEXT_TOP)
            && items[2] == Item(ID, IS) && items[3] == Item(Hex(m.id), NEXT_TOP)
            && items[4] == Item(CREATED_AT_NS, IS + (Digits(m.createdAtNs) + NEXT_TOP))
            && items[5] == Item(CHANNELS, Text(": [\n"))
  {
    hide Escape, Hex, Digits, Text;
  }

  lemma TopEndings(m: SessionManifest)
    ensures var items := TopItems(m);
            && |items| == 6
            && Ending(items[0].token) == RECORDER_VERSION && Ending(items[2].token) == ID && Ending(items[4].token) == CREATED_AT_NS
            && Ending(items[5].token) == CHANNELS
            && (forall k :: Key(k) ==> (Ending(items[1].token) == k <==> Ending(m.version) == k))
            && (forall k :: Wordy(k) ==> Ending(items[3].token) != k)
  {
    hide Escape, Hex, Digits, Ending, TopItems, Wordy, Slashed, Text;
    TopKeys();
    TopTokens(m);
    EscapedFacts(m.version);
    HexIsPlain(m.id);
  }

  /** Where the search for each key of the manifest stops: at the version when that ends like the key. */
  lemma TopStops(m: SessionManifest)
    ensures var items, n := TopItems(m), Ending(m.version);
            && FirstAt(items, 0, RECORDER_VERSION) && FirstAt(items, if n == ID then 1 else 2, ID)
            && FirstAt(items, if n == CREATED_AT_NS then 1 else 4, CREATED_AT_NS)
            && FirstAt(items, if n == CHANNELS then 1 else 5, CHANNELS)
            && (n == SEGMENTS ==> FirstAt(items, 1, SEGMENTS)) && (n != SEGMENTS ==> Free(items, SEGMENTS))
  {
    hide Ending, TopItems, Wordy, Text;
    KeyLengths();
    TopKeys();
    WordyIsKey(ID);
    WordyIsKey(CREATED_AT_NS);
    WordyIsKey(CHANNELS);
    WordyIsKey(SEGMENTS);
    TopEndings(m);
  }

  lemma TopLeads(m: SessionManifest)
    ensures var items := TopItems(m); |items| == 6 && Leads(items, 1, 2) && forall v: nat :: v < 6 ==> Leads(items, v, v)
  {
    hide Escape, Hex, Digits, TopItems, Text;
    TopTokens(m);
    TopKeys();
    Separators();
  }

  /** The text behind the manifest's first fields: the list of channels, and the rest. */
  function TopTail(m: SessionManifest): bytes { ListText(ChannelTexts(m.channels)) + SegmentsText(m) }

  function SegmentsText(m: SessionManifest): bytes {
    Text("  ],\n  ") + (ItemsText([Item(SEGMENTS, Text(": [\n"))]) + (ListText(SegmentTexts(m.segments)) + Text("  ]\n}\n")))
  }

  lemma TailApart(m: SessionManifest)
    ensures ManifestText(m) == Text("{\n  ") + (ItemsText(TopItems(m)) + TopTail(m))
  {
    hide Text, ItemsText, TopItems, ListText, ChannelTexts, SegmentTexts;
  }

  lemma TopReads(m: SessionManifest)
    requires |m.id| == 16
    ensures var text := ManifestText(m);
            && StringAt(text, RECORDER_VERSION) == m.version && ParsedId(StringAt(text, ID)) == m.id
            && NumberAt(text, CREATED_AT_NS) == if Ending(m.version) == CREATED_AT_NS then 0 else m.createdAtNs
  {
    hide NumberAt, StringAt, ManifestText, TopItems, TopTail, ItemsText, AllFair, FirstAt, Leads, Lacks, Wordy, Ending, Digits, Escape, Hex, Unhex, Separates, Text;
    var items, tail, head := TopItems(m), TopTail(m), Text("{\n  ");
    TailApart(m);
    TopFair(m);
    TopTokens(m);
    TopStops(m);
    TopLeads(m);
    TopKeys();
    WordyIsKey(RECORDER_VERSION);
    WordyIsKey(ID);
    WordyIsKey(CREATED_AT_NS);
    Separators();
    SepFacts(NEXT_TOP);
    HexIsItself(m.id);
    HexReadsBack(m.id);
    NoBytes();
    assert IS + [] == IS;
    StringIn(head, items, tail, 0, 0, RECORDER_VERSION, [], m.version);
    StringIn(head, items, tail, if Ending(m.version) == ID then 1 else 2, 2, ID, [], Hex(m.id));
    if Ending(m.version) == CREATED_AT_NS {
      NoNumberIn(head, items, tail, 1, 2, CREATED_AT_NS);
    } else {
      NumberIn(head, items, tail, 4, 4, CREATED_AT_NS, m.createdAtNs, NEXT_TOP);
    }
  }

  lemma NoBytes()
    ensures Quoteless([])
  {
  }

  // ----- finding the lists -----

  lemma OpenArray(x: bytes)
    ensures After(Text(": [\n") + x, [OPEN_BRACKET]) == Some([10] + x)
  {
    assert Text(": [\n") == [58, 32, OPEN_BRACKET, 10];
    assert Text(": [\n") + x == [58, 32] + ([OPEN_BRACKET] + ([10] + x));
    SkipByte([58, 32], [OPEN_BRACKET] + ([10] + x), OPEN_BRACKET);
    FoundHere([10] + x, OPEN_BRACKET);
  }

  /** Items without an opening bracket. */
  ghost predicate AllShut(items: seq<Item>) {
    forall i :: 0 <= i < |items| ==> Lacks(items[i].token, OPEN_BRACKET) && Lacks(items[i].after, OPEN_BRACKET)
  }

  lemma {:induction false} ItemsShut(items: seq<Item>)
    requires AllShut(items)
    ensures Lacks(ItemsText(items), OPEN_BRACKET)
    decreases |items|
  {
    hide Lacks;
    if items == [] {
      NothingLacks(OPEN_BRACKET);
    } else {
      var it := items[0];
      ItemsShut(items[1..]);
      QuotedShut(it.token);
      LacksConcat(Quoted(it.token), it.after, OPEN_BRACKET);
      LacksConcat(Quoted(it.token) + it.after, ItemsText(items[1..]), OPEN_BRACKET);
    }
  }

  lemma NothingLacks(b: byte)
    ensures Lacks([], b)
  {
  }

  lemma QuotedShut(t: bytes)
    requires Lacks(t, OPEN_BRACKET)
    ensures Lacks(Quoted(t), OPEN_BRACKET)
  {
  }

  lemma NumberShut(n: nat, sep: bytes)
    requires Lacks(sep, OPEN_BRACKET)
    ensures Lacks(IS + (Digits(n) + sep), OPEN_BRACKET)
  {
    hide Digits;
    DigitsArePlain(n);
    IsPieces();
  }

  /** From the version on, the first opening bracket is that of the list of channels. */
  lemma OpensChannels(m: SessionManifest, j: nat)
    requires j == 1 || j == 5
    ensures var items := TopItems(m);
            |items| == 6 && After(items[j].after + (ItemsText(items[j + 1..]) + TopTail(m)), [OPEN_BRACKET]) == Some([10] + TopTail(m))
  {
    hide After, Text, ItemsText, TopItems, TopTail, Lacks, Escape, Hex, Digits, Wordy, Separates;
    var items, tail := TopItems(m), TopTail(m);
    TopTokens(m);
    OpenArray(tail);
    NoItems(tail);
    if j == 1 {
      var middle, last := items[2..5], items[5];
      assert items[2..] == middle + [last];
      MiddleShut(m);
      ItemsShut(middle);
      SepShut(NEXT_TOP);
      QuotedShut(CHANNELS);
      LacksConcat(NEXT_TOP, ItemsText(middle), OPEN_BRACKET);
      LacksConcat(NEXT_TOP + ItemsText(middle), Quoted(CHANNELS), OPEN_BRACKET);
      ItemsConcat(middle, [last]);
      OneItem(last.token, last.after);
      var front := NEXT_TOP + ItemsText(middle) + Quoted(CHANNELS);
      assert items[1].after + (ItemsText(items[2..]) + tail) == front + (last.after + tail);
      SkipByte(front, last.after + tail, OPEN_BRACKET);
    } else {
      assert items[6..] == [];
    }
  }

  lemma SepShut(sep: bytes)
    requires sep == NEXT_TOP
    ensures Lacks(sep, OPEN_BRACKET) && Lacks(CHANNELS, OPEN_BRACKET)
  {
    Separators();
    TopKeys();
    WordyIsKey(CHANNELS);
    KeyFacts(CHANNELS);
  }

  lemma MiddleShut(m: SessionManifest)
    ensures |TopItems(m)| == 6 && AllShut(TopItems(m)[2..5])
  {
    hide Text, TopItems, Escape, Hex, Digits, Key, Separates;
    TopTokens(m);
    TopKeys();
    KeyFacts(ID);
    KeyFacts(CREATED_AT_NS);
    SepShut(NEXT_TOP);
    HexIsPlain(m.id);
    NumberShut(m.createdAtNs, NEXT_TOP);
    IsPieces();
  }

  lemma NoItems(tail: bytes)
    ensures ItemsText([]) + tail == tail
  {
  }

  lemma Closings(more: bytes)
    ensures Text("  ],\n  ") + more == Text("  ") + ([CLOSE_BRACKET] + (Text(",\n  ") + more))
    ensures Text("  ]\n}\n") == Text("  ") + ([CLOSE_BRACKET] + Text("\n}\n"))
    ensures Quoteless(Text("  ],\n  ")) && Lacks(Text("  ],\n  "), OPEN_BRACKET)
  {
  }

  /** Every string of the channels and segments closes the brackets it opens. */
  ghost predicate Nested(m: SessionManifest) {
    && (forall i :: 0 <= i < |m.channels| ==> Even(m.channels[i].name) && Even(m.channels[i].schema))
    && NestedNames(m.segments)
  }

  ghost predicate NestedNames(segments: seq<SegmentEntry>) { forall i :: 0 <= i < |segments| ==> Even(segments[i].filename) }

  lemma ListsBoxed(m: SessionManifest)
    requires Nested(m)
    ensures AllBoxed(ChannelTexts(m.channels)) && AllBoxed(SegmentTexts(m.segments))
  {
    hide Even, ChannelItems, SegmentTexts, ObjectText, Boxed;
    SegmentsBoxed(m.segments);
    forall i | 0 <= i < |m.channels|
      ensures Boxed(ChannelTexts(m.channels)[i])
    {
      ChannelLevel(m.channels[i]);
      ObjectIsBoxed(ChannelItems(m.channels[i]));
    }
  }

  lemma SegmentsBoxed(segments: seq<SegmentEntry>)
    requires NestedNames(segments)
    ensures AllBoxed(SegmentTexts(segments))
  {
    hide Even, SegmentItems, ObjectText, Boxed;
    forall i | 0 <= i < |segments|
      ensures Boxed(SegmentTexts(segments)[i])
    {
      SegmentLevel(segments[i]);
      ObjectIsBoxed(SegmentItems(segments[i]));
    }
  }

  /** A search that stops at the version or at the key of the channels goes on into their list. */
  lemma ChannelsSought(m: SessionManifest, key: bytes, j: nat)
    requires Wordy(key) && (j == 1 || j == 5) && FirstAt(TopItems(m), j, key)
    ensures var found := After(ManifestText(m), Quoted(key)); found.Some? && After(found.value, [OPEN_BRACKET]) == Some([10] + TopTail(m))
  {
    hide After, Quoted, ListText, Text, ManifestText, TopItems, ChannelTexts, SegmentTexts, ItemsText, Quoteless, Wordy, FirstAt, AllFair;
    TailApart(m);
    TopFair(m);
    WordyIsKey(key);
    FindItem(Text("{\n  "), TopItems(m), TopTail(m), j, key);
    OpensChannels(m, j);
  }

  /** It finds the channels. */
  lemma ChannelsAt(m: SessionManifest, key: bytes, j: nat)
    requires Nested(m) && Wordy(key) && (j == 1 || j == 5) && FirstAt(TopItems(m), j, key)
    ensures ObjectsAt(ManifestText(m), key) == ChannelTexts(m.channels)
  {
    hide After, Quoted, ListText, Text, ObjectsAt, ManifestText, TopItems, ChannelTexts, SegmentTexts, ItemsText, Nested, Wordy, FirstAt, AllBoxed;
    var more := ItemsText([Item(SEGMENTS, Text(": [\n"))]) + (ListText(SegmentTexts(m.segments)) + Text("  ]\n}\n"));
    ChannelsSought(m, key, j);
    Closings(more);
    ListsBoxed(m);
    ArrayReads(ManifestText(m), key, ChannelTexts(m.channels), Text(",\n  ") + more);
  }

  // ----- finding the list of segments behind the channels -----

  /** No string of a channel ends like the key of the segments, or none of them opens a bracket. */
  ghost predicate InSight(channels: seq<ChannelDef>) {
    || (forall i :: 0 <= i < |channels| ==> Ending(channels[i].name) != SEGMENTS && Ending(channels[i].schema) != SEGMENTS)
    || (forall i :: 0 <= i < |channels| ==> Lacks(channels[i].name, OPEN_BRACKET) && Lacks(channels[i].schema, OPEN_BRACKET))
  }

  /** The search for the segments' key stops somewhere in text from where the next opening bracket is the one after y. */
  ghost predicate Reaches(text: bytes, y: bytes) {
    After(text, Quoted(SEGMENTS)).Some? && After(After(text, Quoted(SEGMENTS)).value, [OPEN_BRACKET]) == After(y, [OPEN_BRACKET])
  }

  lemma ChannelShut(d: ChannelDef)
    requires Lacks(d.name, OPEN_BRACKET) && Lacks(d.schema, OPEN_BRACKET)
    ensures AllShut(ChannelItems(d))
  {
    hide Lacks, Text, Escape, Hex, Digits, ChannelItems, Wordy, Separates;
    ChannelTokens(d);
    KeysShut();
    EscapeLacksOpen(d.name);
    EscapeLacksOpen(d.schema);
    HexIsPlain(d.metadata);
    NumberShut(d.id, NEXT);
    NumberShut(d.layer, NEXT);
    NumberShut(d.compression, NEXT);
    NumberShut(d.chunkSize, NEXT);
    NumberShut(d.flushMs, NEXT);
  }

  lemma KeysShut()
    ensures Lacks(ID, OPEN_BRACKET) && Lacks(NAME, OPEN_BRACKET) && Lacks(LAYER, OPEN_BRACKET) && Lacks(COMPRESSION, OPEN_BRACKET)
    ensures Lacks(CHUNK_SIZE_BYTES, OPEN_BRACKET) && Lacks(CHUNK_FLUSH_MS, OPEN_BRACKET) && Lacks(SCHEMA, OPEN_BRACKET) && Lacks(USER_METADATA_HEX, OPEN_BRACKET)
    ensures Lacks(IS, OPEN_BRACKET) && Lacks(NEXT, OPEN_BRACKET) && Lacks(LAST, OPEN_BRACKET)
  {
    hide Lacks, Key, Text, Ending;
    TopKeys();
    ChannelKeys();
    KeyFacts(ID);
    KeyFacts(NAME);
    KeyFacts(LAYER);
    KeyFacts(COMPRESSION);
    KeyFacts(CHUNK_SIZE_BYTES);
    KeyFacts(CHUNK_FLUSH_MS);
    KeyFacts(SCHEMA);
    KeyFacts(USER_METADATA_HEX);
    Separators();
  }

  lemma {:induction false} ListShut(channels: seq<ChannelDef>)
    requires forall i :: 0 <= i < |channels| ==> Lacks(channels[i].name, OPEN_BRACKET) && Lacks(channels[i].schema, OPEN_BRACKET)
    ensures Lacks(ListText(ChannelTexts(channels)), OPEN_BRACKET)
    decreases |channels|
  {
    hide Lacks, Text, Comma, ObjectText, ChannelItems;
    var objects := ChannelTexts(channels);
    if channels == [] {
      NoList();
      NothingLacks(OPEN_BRACKET);
    } else {
      assert objects[1..] == ChannelTexts(channels[1..]);
      ListCons(objects, []);
      Commas(objects);
      ListShut(channels[1..]);
      ObjectShut(channels[0]);
      var rest := ListText(objects[1..]);
      assert rest + [] == rest && ListText(objects) + [] == ListText(objects);
      LacksConcat(Comma(objects), rest, OPEN_BRACKET);
      LacksConcat(objects[0], Comma(objects) + rest, OPEN_BRACKET);
      LacksConcat(Text("    "), objects[0] + (Comma(objects) + rest), OPEN_BRACKET);
    }
  }

  lemma ObjectShut(d: ChannelDef)
    requires Lacks(d.name, OPEN_BRACKET) && Lacks(d.schema, OPEN_BRACKET)
    ensures Lacks(ObjectText(ChannelItems(d)), OPEN_BRACKET)
  {
    hide Lacks, ChannelItems, ItemsText, AllShut;
    ChannelShut(d);
    ItemsShut(ChannelItems(d));
    BeginIsQuoteless();
    LacksConcat(BEGIN, ItemsText(ChannelItems(d)), OPEN_BRACKET);
    LacksConcat(BEGIN + ItemsText(ChannelItems(d)), END, OPEN_BRACKET);
  }

  /** No key of a channel. */
  ghost predicate Foreign(key: bytes) {
    && Wordy(key) && key != ID && key != NAME && key != LAYER && key != COMPRESSION && key != CHUNK_SIZE_BYTES && key != CHUNK_FLUSH_MS
    && key != SCHEMA && key != USER_METADATA_HEX
  }

  lemma ForeignKeys()
    ensures Foreign(SEGMENTS) && Foreign(FILENAME) && Foreign(SEGMENT_INDEX) && Foreign(START_NS) && Foreign(END_NS) && Foreign(SIZE_BYTES)
  {
    hide Wordy, Text, Ending;
    KeyLengths();
    TopKeys();
    SegmentKeys();
  }

  lemma ForeignIsKey(key: bytes)
    requires Foreign(key)
    ensures Key(key) && Wordy(key)
  {
  }

  /** In a channel the search for another key passes, or stops at a string that ends like it. */
  lemma ForeignStops(d: ChannelDef, key: bytes)
    requires Foreign(key)
    ensures Ending(d.name) != key && Ending(d.schema) != key ==> Free(ChannelItems(d), key)
    ensures Ending(d.name) == key ==> FirstAt(ChannelItems(d), 2, key)
    ensures Ending(d.name) != key && Ending(d.schema) == key ==> FirstAt(ChannelItems(d), 8, key)
  {
    hide Ending, ChannelItems, Wordy, Text;
    WordyIsKey(key);
    ChannelEndings(d);
  }

  lemma ObjectApart(items: seq<Item>, y: bytes)
    ensures ObjectText(items) + y == BEGIN + (ItemsText(items) + (END + y))
  {
    hide ItemsText;
  }

  lemma PassObject(d: ChannelDef, key: bytes, y: bytes)
    requires Key(key) && Free(ChannelItems(d), key)
    ensures After(ObjectText(ChannelItems(d)) + y, Quoted(key)) == After(y, Quoted(key))
  {
    hide After, Quoted, Free, ItemsText, Quoteless, ChannelItems, ObjectText, Key, AllFair;
    var items := ChannelItems(d);
    ChannelFair(d);
    BeginIsQuoteless();
    ObjectApart(items, y);
    SkipQuoteless(BEGIN, ItemsText(items) + (END + y), key);
    PassItems(items, END + y, key);
    SkipQuoteless(END, y, key);
  }

  /** Stopped at a string of a channel without opening brackets, the search for the list goes on behind the channel. */
  lemma StopInObject(d: ChannelDef, j: nat, y: bytes)
    requires FirstAt(ChannelItems(d), j, SEGMENTS) && AllShut(ChannelItems(d))
    ensures var found := After(ObjectText(ChannelItems(d)) + y, Quoted(SEGMENTS));
            found.Some? && After(found.value, [OPEN_BRACKET]) == After(y, [OPEN_BRACKET])
  {
    hide After, Quoted, FirstAt, ItemsText, Lacks, ChannelItems, ObjectText, Wordy, Text, AllFair;
    var items := ChannelItems(d);
    TopKeys();
    WordyIsKey(SEGMENTS);
    ChannelFair(d);
    StopsWithin(items, j, SEGMENTS);
    BeginIsQuoteless();
    ObjectApart(items, y);
    FindItem(BEGIN, items, END + y, j, SEGMENTS);
    var more := items[j + 1..];
    ItemsShut(more);
    LacksConcat(items[j].after, ItemsText(more), OPEN_BRACKET);
    LacksConcat(items[j].after + ItemsText(more), END, OPEN_BRACKET);
    var front := items[j].after + ItemsText(more) + END;
    assert items[j].after + (ItemsText(more) + (END + y)) == front + y;
    SkipByte(front, y, OPEN_BRACKET);
  }

  lemma {:induction false} ChannelsSearch(channels: seq<ChannelDef>, y: bytes)
    requires InSight(channels) && Reaches(y, y)
    ensures Reaches(ListText(ChannelTexts(channels)) + y, y)
    decreases |channels|
  {
    hide After, Quoted, ListText, Text, Comma, ObjectText, ChannelItems, Lacks, Ending, Foreign, Key, Separates, AllShut, Free, FirstAt;
    var objects := ChannelTexts(channels);
    if channels == [] {
      NoList();
      assert [] + y == y;
    } else {
      var d := channels[0];
      assert objects[1..] == ChannelTexts(channels[1..]);
      var list := ListText(objects[1..]);
      var rest := list + y;
      var behind := Comma(objects) + rest;
      ListCons(objects, y);
      Commas(objects);
      CommasAreQuoteless(objects);
      SkipQuoteless(Text("    "), objects[0] + behind, SEGMENTS);
      ForeignKeys();
      ForeignIsKey(SEGMENTS);
      ForeignStops(d, SEGMENTS);
      if Ending(d.name) != SEGMENTS && Ending(d.schema) != SEGMENTS {
        PassObject(d, SEGMENTS, behind);
        SkipQuoteless(Comma(objects), rest, SEGMENTS);
        ChannelsSearch(channels[1..], y);
      } else {
        ChannelShut(d);
        ListShut(channels[1..]);
        StopInObject(d, if Ending(d.name) == SEGMENTS then 2 else 8, behind);
        LacksConcat(Comma(objects), list, OPEN_BRACKET);
        Seqs.Regroup(Comma(objects), list, y);
        SkipByte(Comma(objects) + list, y, OPEN_BRACKET);
      }
    }
  }

  lemma CommasAreQuoteless(objects: seq<bytes>)
    ensures Quoteless(Text("    ")) && Quoteless(Comma(objects)) && Lacks(Comma(objects), OPEN_BRACKET)
  {
    Commas(objects);
  }

  lemma SegmentsList(m: SessionManifest)
    ensures Reaches(SegmentsText(m), SegmentsText(m))
    ensures After(SegmentsText(m), [OPEN_BRACKET]) == Some([10] + (ListText(SegmentTexts(m.segments)) + Text("  ]\n}\n")))
  {
    hide After, Quoted, ListText, Text, SegmentTexts, ItemsText, Wordy, Lacks;
    var gap, begin, list := Text("  ],\n  "), Text(": [\n"), ListText(SegmentTexts(m.segments)) + Text("  ]\n}\n");
    TopKeys();
    WordyIsKey(SEGMENTS);
    KeyFacts(SEGMENTS);
    Closings([]);
    OneItem(SEGMENTS, begin);
    OpenArray(list);
    SkipQuoteless(gap, ItemsText([Item(SEGMENTS, begin)]) + list, SEGMENTS);
    assert ItemsText([Item(SEGMENTS, begin)]) + list == Quoted(SEGMENTS) + (begin + list);
    QuotedText(SEGMENTS, begin + list);
    HitQuote(SEGMENTS, begin + list);
    QuotedShut(SEGMENTS);
    LacksConcat(gap, Quoted(SEGMENTS), OPEN_BRACKET);
    assert SegmentsText(m) == (gap + Quoted(SEGMENTS)) + (begin + list);
    SkipByte(gap + Quoted(SEGMENTS), begin + list, OPEN_BRACKET);
  }

  lemma SegmentsFound(m: SessionManifest)
    requires NestedNames(m.segments) && InSight(m.channels) && Ending(m.version) != SEGMENTS
    ensures ObjectsAt(ManifestText(m), SEGMENTS) == SegmentTexts(m.segments)
  {
    hide After, Quoted, ListText, Text, ObjectsAt, ManifestText, TopItems, ChannelTexts, SegmentTexts, ItemsText, NestedNames, InSight, Quoteless, Wordy, Free, Ending, AllFair, AllBoxed, SegmentsText;
    var items, list := TopItems(m), SegmentTexts(m.segments);
    TailApart(m);
    TopFair(m);
    TopStops(m);
    TopKeys();
    WordyIsKey(SEGMENTS);
    SkipQuoteless(Text("{\n  "), ItemsText(items) + TopTail(m), SEGMENTS);
    PassItems(items, TopTail(m), SEGMENTS);
    SegmentsList(m);
    ChannelsSearch(m.channels, SegmentsText(m));
    Closings([]);
    SegmentsBoxed(m.segments);
    ArrayReads(ManifestText(m), SEGMENTS, list, Text("\n}\n"));
  }

  // ----- channels read as segments -----

  /** What reading a printed channel as a segment gives: what stands behind a string that ends like a key, if anything. */
  function Mistaken(d: ChannelDef): SegmentEntry {
    var n := Ending(d.name);
    SegmentEntry(
      if n == FILENAME then COMPRESSION else if Ending(d.schema) == FILENAME then Hex(d.metadata) else [],
      SegmentInfo(
        if n == SEGMENT_INDEX then d.layer else 0, if n == START_NS then d.layer else 0,
        if n == END_NS then d.layer else 0, if n == SIZE_BYTES then d.layer else 0))
  }

  lemma NothingBehind(key: bytes)
    ensures After([], Quoted(key)) == None
  {
  }

  lemma ForeignNumber(d: ChannelDef, key: bytes)
    requires Foreign(key)
    ensures NumberAt(ObjectText(ChannelItems(d)), key) == if Ending(d.name) == key then d.layer else 0
  {
    hide After, Quoted, AllFair, FirstAt, Leads, ItemsText, ChannelItems, Digits, Separates, Ending, Key, StoUll, SkipBlanks, Foreign, Free;
    var items, text := ChannelItems(d), ObjectText(ChannelItems(d));
    Seqs.Regroup(BEGIN, ItemsText(items), END);
    Separators();
    SepFacts(NEXT);
    ForeignIsKey(key);
    ForeignStops(d, key);
    ChannelFair(d);
    ChannelTokens(d);
    ChannelLeads(d);
    BeginIsQuoteless();
    if Ending(d.name) == key {
      NumberIn(BEGIN, items, END, 2, 3, key, d.layer, NEXT);
    } else if Ending(d.schema) == key {
      NoNumberIn(BEGIN, items, END, 8, 9, key);
    } else {
      PassObject(d, key, []);
      NothingBehind(key);
      assert text + [] == text;
    }
  }

  lemma ForeignString(d: ChannelDef, key: bytes)
    requires Foreign(key)
    ensures StringAt(ObjectText(ChannelItems(d)), key) ==
            if Ending(d.name) == key then COMPRESSION else if Ending(d.schema) == key then Hex(d.metadata) else []
  {
    hide After, Quoted, AllFair, FirstAt, Leads, ItemsText, ChannelItems, Digits, Separates, Ending, Key, StringValue, Foreign, Free, Escape, Hex;
    var items, text := ChannelItems(d), ObjectText(ChannelItems(d));
    Seqs.Regroup(BEGIN, ItemsText(items), END);
    Separators();
    SepFacts(NEXT);
    ForeignIsKey(key);
    ForeignStops(d, key);
    ChannelFair(d);
    ChannelTokens(d);
    ChannelLeads(d);
    BeginIsQuoteless();
    assert IS + [] == IS;
    if Ending(d.name) == key {
      CompressionEscapes();
      DigitsArePlain(d.layer);
      LacksConcat(Digits(d.layer), NEXT, QUOTE);
      StringIn(BEGIN, items, END, 2, 3, key, Digits(d.layer) + NEXT, COMPRESSION);
    } else if Ending(d.schema) == key {
      HexIsItself(d.metadata);
      StringIn(BEGIN, items, END, 8, 9, key, [], Hex(d.metadata));
    } else {
      PassObject(d, key, []);
      NothingBehind(key);
      assert text + [] == text;
    }
  }

  lemma ChannelAsSegment(d: ChannelDef)
    ensures ParsedSegment(ObjectText(ChannelItems(d))) == Mistaken(d)
  {
    hide NumberAt, StringAt, ObjectText, ChannelItems, Ending, Foreign, Text, Hex;
    ForeignKeys();
    ForeignString(d, FILENAME);
    ForeignNumber(d, SEGMENT_INDEX);
    ForeignNumber(d, START_NS);
    ForeignNumber(d, END_NS);
    ForeignNumber(d, SIZE_BYTES);
  }

  function AllMistaken(channels: seq<ChannelDef>): seq<SegmentEntry> {
    if channels == [] then [] else AllMistaken(channels[..|channels| - 1]) + [Mistaken(channels[|channels| - 1])]
  }

  lemma {:induction false} ChannelsAsSegments(channels: seq<ChannelDef>)
    ensures ParsedSegments(ChannelTexts(channels)) == AllMistaken(channels)
    decreases |channels|
  {
    hide ChannelItems, ObjectText, ParsedSegment, Mistaken;
    if channels != [] {
      var n := |channels| - 1;
      assert ChannelTexts(channels)[..n] == ChannelTexts(channels[..n]);
      ChannelsAsSegments(channels[..n]);
      ChannelAsSegment(channels[n]);
    }
  }

  // ----- the whole manifest -----

  function ChannelsAsRead(channels: seq<ChannelDef>): seq<ChannelDef> {
    if channels == [] then [] else ChannelsAsRead(channels[..|channels| - 1]) + [ChannelAsRead(channels[|channels| - 1])]
  }

  function SegmentsAsRead(segments: seq<SegmentEntry>): seq<SegmentEntry> {
    if segments == [] then [] else SegmentsAsRead(segments[..|segments| - 1]) + [SegmentAsRead(segments[|segments| - 1])]
  }

  lemma {:induction false} ChannelsRead(channels: seq<ChannelDef>)
    ensures ParsedChannels(ChannelTexts(channels)) == ChannelsAsRead(channels)
    decreases |channels|
  {
    hide ChannelItems, ObjectText, ParsedChannel, ChannelAsRead;
    if channels != [] {
      var n := |channels| - 1;
      assert ChannelTexts(channels)[..n] == ChannelTexts(channels[..n]);
      ChannelsRead(channels[..n]);
      ChannelReads(channels[n]);
    }
  }

  lemma {:induction false} SegmentsRead(segments: seq<SegmentEntry>)
    requires forall i :: 0 <= i < |segments| ==> segments[i].info.size <= U64_MAX
    ensures ParsedSegments(SegmentTexts(segments)) == SegmentsAsRead(segments)
    decreases |segments|
  {
    hide SegmentItems, ObjectText, ParsedSegment, SegmentAsRead;
    if segments != [] {
      var n := |segments| - 1;
      assert SegmentTexts(segments)[..n] == SegmentTexts(segments[..n]);
      SegmentsRead(segments[..n]);
      SegmentReads(segments[n]);
    }
  }

  /** The identifier has 16 bytes and file sizes have 64 bits; brackets in strings close, and the list of segments is in sight. */
  ghost predicate Searchable(m: SessionManifest) {
    && |m.id| == 16 && (forall i :: 0 <= i < |m.segments| ==> m.segments[i].info.size <= U64_MAX)
    && Nested(m) && (Ending(m.version) != SEGMENTS ==> InSight(m.channels))
  }

  /** What reading such a manifest's text gives. A version that ends like the key of the segments makes the channels be read as segments. */
  function ManifestAsRead(m: SessionManifest): SessionManifest {
    var n := Ending(m.version);
    SessionManifest(
      m.version, m.id, if n == CREATED_AT_NS then 0 else m.createdAtNs, ChannelsAsRead(m.channels),
      if n == SEGMENTS then AllMistaken(m.channels) else SegmentsAsRead(m.segments))
  }

  lemma ManifestReads(m: SessionManifest)
    requires Searchable(m)
    ensures ParsedManifest(ManifestText(m)) == ManifestAsRead(m)
  {
    hide NumberAt, StringAt, ObjectsAt, ManifestText, ParsedChannels, ParsedSegments, ParsedId, ChannelTexts, SegmentTexts, NestedNames, Even, InSight, Ending, FirstAt, Wordy, Text, TopItems,
      ChannelsAsRead, SegmentsAsRead, AllMistaken, Free;
    TopKeys();
    TopReads(m);
    TopStops(m);
    ChannelsAt(m, CHANNELS, if Ending(m.version) == CHANNELS then 1 else 5);
    ChannelsRead(m.channels);
    if Ending(m.version) == SEGMENTS {
      ChannelsAt(m, SEGMENTS, 1);
      ChannelsAsSegments(m.channels);
    } else {
      SegmentsFound(m);
      SegmentsRead(m.segments);
    }
  }

  lemma {:induction false} ChannelsSame(channels: seq<ChannelDef>)
    ensures ChannelsAsRead(channels) == channels <==> forall i :: 0 <= i < |channels| ==> Unshadowed(channels[i])
    ensures |ChannelsAsRead(channels)| == |channels|
    decreases |channels|
  {
    hide ChannelAsRead, Unshadowed;
    if channels != [] {
      var n := |channels| - 1;
      ChannelsSame(channels[..n]);
      OneChannelSame(channels[n]);
      assert channels == channels[..n] + [channels[n]];
      var read := ChannelsAsRead(channels[..n]);
      assert read + [ChannelAsRead(channels[n])] == channels <==> read == channels[..n] && ChannelAsRead(channels[n]) == channels[n] by {
        SnocEqual(read, ChannelAsRead(channels[n]), channels);
      }
    }
  }

  lemma SnocEqual<T>(a: seq<T>, x: T, s: seq<T>)
    requires s != [] && |a| == |s| - 1
    ensures a + [x] == s <==> a == s[..|s| - 1] && x == s[|s| - 1]
  {
    if a + [x] == s {
      assert (a + [x])[..|a|] == a;
    }
  }

  lemma OneChannelSame(d: ChannelDef)
    ensures ChannelAsRead(d) == d <==> Unshadowed(d)
  {
    hide Ending, Unhex;
  }

  lemma {:induction false} SegmentsSame(segments: seq<SegmentEntry>)
    ensures SegmentsAsRead(segments) == segments <==> forall i :: 0 <= i < |segments| ==> InFull(segments[i])
    ensures |SegmentsAsRead(segments)| == |segments|
    decreases |segments|
  {
    hide SegmentAsRead, InFull;
    if segments != [] {
      var n := |segments| - 1;
      SegmentsSame(segments[..n]);
      OneSegmentSame(segments[n]);
      var read := SegmentsAsRead(segments[..n]);
      SnocEqual(read, SegmentAsRead(segments[n]), segments);
    }
  }

  lemma OneSegmentSame(s: SegmentEntry)
    ensures SegmentAsRead(s) == s <==> InFull(s)
  {
    hide Ending;
  }

  /** Nothing that is read differs from what was printed. */
  ghost predicate Legible(m: SessionManifest) {
    var n := Ending(m.version);
    && (n == CREATED_AT_NS ==> m.createdAtNs == 0)
    && (forall i :: 0 <= i < |m.channels| ==> Unshadowed(m.channels[i]))
    && (if n == SEGMENTS then m.segments == AllMistaken(m.channels)
        else forall i :: 0 <= i < |m.segments| ==> InFull(m.segments[i]))
  }

  /** When parsing the printed manifest returns the manifest, for all manifests whose lists the search can find. */
  lemma ManifestReadsBack(m: SessionManifest)
    requires Searchable(m)
    ensures ParsedManifest(ManifestText(m)) == m <==> Legible(m)
  {
    hide ManifestText, ParsedManifest, AllMistaken, Unshadowed, InFull, Searchable, Ending;
    ManifestReads(m);
    ChannelsSame(m.channels);
    SegmentsSame(m.segments);
  }
}
