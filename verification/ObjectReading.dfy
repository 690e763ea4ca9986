/** Reading one printed channel or segment back, and exactly when it comes back as it was. */
module ObjectReading {
  import opened Bytes
  import opened Recording
  import opened Json
  import opened Manifest
  import opened KeySearch
  import Seqs

  // ----- keys and separators -----

  /** The key is not a hexadecimal number, so no identifier or metadata is mistaken for it. */
  ghost predicate Wordy(k: bytes) { Key(k) && exists i :: 0 <= i < |k| && !HexByte(k[i]) }

  predicate HexByte(b: byte) { 48 <= b <= 57 || 97 <= b <= 102 }

  lemma {:induction false} HexBytes(data: bytes)
    ensures forall i :: 0 <= i < |Hex(data)| ==> HexByte(Hex(data)[i])
    decreases |data|
  {
    if data != [] {
      HexBytes(data[..|data| - 1]);
    }
  }

  lemma {:induction false} HexEscapes(h: bytes)
    requires forall i :: 0 <= i < |h| ==> HexByte(h[i])
    ensures Escape(h) == h
    decreases |h|
  {
    if h != [] {
      HexEscapes(h[..|h| - 1]);
      assert h == h[..|h| - 1] + [h[|h| - 1]];
    }
  }

  /** Hexadecimal text is its own escaped form and never a key. */
  lemma HexIsPlain(data: bytes)
    ensures Bracketless(Hex(data)) && Escape(Hex(data)) == Hex(data) && Slashed(Hex(data)) && Lacks(Hex(data), OPEN_BRACKET)
    ensures forall k :: Wordy(k) ==> Ending(Hex(data)) != k
  {
    hide Hex, Key, Ending;
    HexBytes(data);
    HexEscapes(Hex(data));
    EndingOfPlain(Hex(data));
  }

  /** The i-th letter of the key is no hexadecimal digit. */
  lemma LiteralKey(s: string, i: nat)
    requires i < |s| && 'g' <= s[i] <= 'z' && 'a' <= s[0] <= 'z'
    requires forall k :: 0 <= k < |s| ==> 'a' <= s[k] <= 'z' || s[k] == '_'
    ensures Wordy(Text(s)) && Ending(Text(s)) == Text(s)
  {
    hide Ending;
    assert !HexByte(Text(s)[i]);
    EndingOfPlain(Text(s));
  }

  ghost predicate Whole(k: bytes) { Wordy(k) && Ending(k) == k }

  lemma TopKeys()
    ensures Whole(RECORDER_VERSION) && Whole(ID) && Whole(CREATED_AT_NS) && Whole(CHANNELS) && Whole(SEGMENTS)
  {
    hide Text, Wordy, Ending;
    LiteralKey("recorder_version", 0);
    LiteralKey("id", 0);
    LiteralKey("created_at_ns", 1);
    LiteralKey("channels", 1);
    LiteralKey("segments", 0);
  }

  lemma ChannelKeys()
    ensures Whole(NAME) && Whole(LAYER) && Whole(COMPRESSION) && Whole(CHUNK_SIZE_BYTES) && Whole(CHUNK_FLUSH_MS)
    ensures Whole(SCHEMA) && Whole(USER_METADATA_HEX)
  {
    hide Text, Wordy, Ending;
    LiteralKey("name", 0);
    LiteralKey("layer", 0);
    LiteralKey("compression", 1);
    LiteralKey("chunk_size_bytes", 1);
    LiteralKey("chunk_flush_ms", 1);
    LiteralKey("schema", 0);
    LiteralKey("user_metadata_hex", 0);
  }

  lemma SegmentKeys()
    ensures Whole(FILENAME) && Whole(SEGMENT_INDEX) && Whole(START_NS) && Whole(END_NS) && Whole(SIZE_BYTES)
  {
    hide Text, Wordy, Ending;
    LiteralKey("filename", 1);
    LiteralKey("segment_index", 0);
    LiteralKey("start_ns", 0);
    LiteralKey("end_ns", 1);
    LiteralKey("size_bytes", 0);
  }

  lemma KeyLengths()
    ensures |RECORDER_VERSION| == 16 && |ID| == 2 && |CREATED_AT_NS| == 13 && |CHANNELS| == 8 && |SEGMENTS| == 8
    ensures |NAME| == 4 && |LAYER| == 5 && |COMPRESSION| == 11 && |CHUNK_SIZE_BYTES| == 16 && |CHUNK_FLUSH_MS| == 14
    ensures |SCHEMA| == 6 && |USER_METADATA_HEX| == 17
    ensures |FILENAME| == 8 && |SEGMENT_INDEX| == 13 && |START_NS| == 8 && |END_NS| == 6 && |SIZE_BYTES| == 10
    ensures FILENAME != START_NS && CHANNELS != SEGMENTS && END_NS != SCHEMA
  {
    assert END_NS[0] == 101 && SCHEMA[0] == 115;
    assert FILENAME[0] == 102 && START_NS[0] == 115;
    assert CHANNELS[0] == 99 && SEGMENTS[0] == 115;
  }

  predicate Bracket(b: byte) { b == OPEN_BRACKET || b == CLOSE_BRACKET || b == OPEN_BRACE || b == CLOSE_BRACE }

  ghost predicate Bracketless(s: bytes) { forall i :: 0 <= i < |s| ==> !Bracket(s[i]) }

  ghost predicate Separates(s: bytes) {
    Between(s) && Bracketless(s) && !Digit(s[0]) && Lacks(s, COLON) && Lacks(s, OPEN_BRACKET)
  }

  lemma Separator(s: string)
    requires s != "" && forall k :: 0 <= k < |s| ==> s[k] == ' ' || s[k] == ',' || s[k] == '\n'
    ensures Separates(Text(s))
  {
  }

  lemma Separators()
    ensures Separates(NEXT) && Separates(NEXT_TOP) && Separates(LAST)
    ensures Between(IS) && Bracketless(IS) && Lacks(IS, OPEN_BRACKET)
  {
    hide Separates, Text;
    Separator(",\n      ");
    Separator(",\n  ");
    Separator("\n    ");
    IsPieces();
  }

  lemma IsPieces()
    ensures Between(IS) && Bracketless(IS) && Lacks(IS, OPEN_BRACKET)
  {
    assert IS == [COLON, 32];
  }

  lemma {:induction false} DigitsArePlain(n: nat)
    ensures Bracketless(Digits(n)) && Quoteless(Digits(n)) && Lacks(Digits(n), OPEN_BRACKET)
  {
    DigitsAreDigits(n);
  }

  // ----- fields -----

  lemma FairConcat(a: seq<Item>, b: seq<Item>)
    requires AllFair(a) && AllFair(b)
    ensures AllFair(a + b)
  {
    hide Fair;
  }

  lemma NumberFair(key: bytes, n: nat, sep: bytes)
    requires Wordy(key) && Separates(sep)
    ensures AllFair(NumberField(key, n, sep))
  {
    hide Digits;
    DigitsArePlain(n);
    Separators();
  }

  lemma StringFair(key: bytes, token: bytes, sep: bytes)
    requires Wordy(key) && Slashed(token) && Separates(sep)
    ensures AllFair(StringField(key, token, sep))
  {
    Separators();
  }

  lemma EscapedFacts(s: bytes)
    ensures Slashed(Escape(s))
    ensures forall k :: Key(k) ==> (Ending(Escape(s)) == k <==> Ending(s) == k)
  {
    hide Key, Ending, Escape;
    EscapeIsSlashed(s);
    forall k | Key(k)
      ensures Ending(Escape(s)) == k <==> Ending(s) == k
    {
      EndingIsKey(s, k);
    }
  }

  // ----- channels -----

  lemma ChannelFair(d: ChannelDef)
    ensures AllFair(ChannelItems(d))
  {
    hide Wordy, Separates, Slashed, Key, Ending, NumberField, StringField, AllFair, Escape, Hex;
    Separators();
    TopKeys();
    ChannelKeys();
    EscapedFacts(d.name);
    EscapedFacts(d.schema);
    HexIsPlain(d.metadata);
    var a, b := NumberField(ID, d.id, NEXT), StringField(NAME, Escape(d.name), NEXT);
    var e, f := NumberField(LAYER, d.layer, NEXT), NumberField(COMPRESSION, d.compression, NEXT);
    var g, h := NumberField(CHUNK_SIZE_BYTES, d.chunkSize, NEXT), NumberField(CHUNK_FLUSH_MS, d.flushMs, NEXT);
    var i, j := StringField(SCHEMA, Escape(d.schema), NEXT), StringField(USER_METADATA_HEX, Hex(d.metadata), LAST);
    NumberFair(ID, d.id, NEXT);
    StringFair(NAME, Escape(d.name), NEXT);
    NumberFair(LAYER, d.layer, NEXT);
    NumberFair(COMPRESSION, d.compression, NEXT);
    NumberFair(CHUNK_SIZE_BYTES, d.chunkSize, NEXT);
    NumberFair(CHUNK_FLUSH_MS, d.flushMs, NEXT);
    StringFair(SCHEMA, Escape(d.schema), NEXT);
    StringFair(USER_METADATA_HEX, Hex(d.metadata), LAST);
    FairConcat(a, b);
    FairConcat(a + b, e);
    FairConcat(a + b + e, f);
    FairConcat(a + b + e + f, g);
    FairConcat(a + b + e + f + g, h);
    FairConcat(a + b + e + f + g + h, i);
    FairConcat(a + b + e + f + g + h + i, j);
  }

  lemma ChannelTokens(d: ChannelDef)
    ensures var items := ChannelItems(d);
            && |items| == 11
            && items[0] == Item(ID, IS + (Digits(d.id) + NEXT)) && items[1] == Item(NAME, IS) && items[2] == Item(Escape(d.name), NEXT)
            && items[3] == Item(LAYER, IS + (Digits(d.layer) + NEXT)) && items[4] == Item(COMPRESSION, IS + (Digits(d.compression) + NEXT))
            && items[5] == Item(CHUNK_SIZE_BYTES, IS + (Digits(d.chunkSize) + NEXT))
            && items[6] == Item(CHUNK_FLUSH_MS, IS + (Digits(d.flushMs) + NEXT))
            && items[7] == Item(SCHEMA, IS) && items[8] == Item(Escape(d.schema), NEXT)
            && items[9] == Item(USER_METADATA_HEX, IS) && items[10] == Item(Hex(d.metadata), LAST)
  {
    hide Escape, Hex, Digits;
  }

  lemma ChannelEndings(d: ChannelDef)
    ensures var items := ChannelItems(d);
            && |items| == 11
            && Ending(items[0].token) == ID && Ending(items[1].token) == NAME && Ending(items[3].token) == LAYER
            && Ending(items[4].token) == COMPRESSION && Ending(items[5].token) == CHUNK_SIZE_BYTES && Ending(items[6].token) == CHUNK_FLUSH_MS
            && Ending(items[7].token) == SCHEMA && Ending(items[9].token) == USER_METADATA_HEX
            && (forall k :: Key(k) ==> (Ending(items[2].token) == k <==> Ending(d.name) == k))
            && (forall k :: Key(k) ==> (Ending(items[8].token) == k <==> Ending(d.schema) == k))
            && (forall k :: Wordy(k) ==> Ending(items[10].token) != k)
  {
    hide Escape, Hex, Digits, Ending, ChannelItems, Wordy, Slashed;
    TopKeys();
    ChannelKeys();
    ChannelTokens(d);
    EscapedFacts(d.name);
    EscapedFacts(d.schema);
    HexIsPlain(d.metadata);
  }

  /** The search for the key of item p stops at the name or the schema, when they come first and end like it. */
  lemma StopsAt(d: ChannelDef, key: bytes, p: nat)
    requires Key(key) && 3 <= p < 10 && p != 8 && |ChannelItems(d)| == 11 && Ending(ChannelItems(d)[p].token) == key
    requires forall i :: 0 <= i < p && i != 2 && i != 8 ==> Ending(ChannelItems(d)[i].token) != key
    ensures FirstAt(ChannelItems(d), if Ending(d.name) == key then 2 else if p > 8 && Ending(d.schema) == key then 8 else p, key)
  {
    hide Ending, ChannelItems, Key;
    ChannelEndings(d);
  }

  /** Where the search for each key of a channel stops: at the name or the schema when that ends like the key. */
  lemma ChannelStops(d: ChannelDef)
    ensures var items, n := ChannelItems(d), Ending(d.name);
            && FirstAt(items, 0, ID) && FirstAt(items, 1, NAME) && FirstAt(items, if n == LAYER then 2 else 3, LAYER)
            && FirstAt(items, if n == COMPRESSION then 2 else 4, COMPRESSION)
            && FirstAt(items, if n == CHUNK_SIZE_BYTES then 2 else 5, CHUNK_SIZE_BYTES)
            && FirstAt(items, if n == CHUNK_FLUSH_MS then 2 else 6, CHUNK_FLUSH_MS)
            && FirstAt(items, if n == SCHEMA then 2 else 7, SCHEMA)
            && FirstAt(items, if n == USER_METADATA_HEX then 2 else if Ending(d.schema) == USER_METADATA_HEX then 8 else 9, USER_METADATA_HEX)
  {
    hide Ending, ChannelItems, Key, Text;
    KeyLengths();
    ChannelKeys();
    ChannelEndings(d);
    StopsAt(d, LAYER, 3);
    StopsAt(d, COMPRESSION, 4);
    StopsAt(d, CHUNK_SIZE_BYTES, 5);
    StopsAt(d, CHUNK_FLUSH_MS, 6);
    StopsAt(d, SCHEMA, 7);
    StopsAt(d, USER_METADATA_HEX, 9);
  }

  /** What reading a printed channel gives, whatever its strings are. */
  function ChannelAsRead(d: ChannelDef): ChannelDef {
    var n := Ending(d.name);
    d.(compression := if n == COMPRESSION then d.layer else d.compression,
       chunkSize := if n == CHUNK_SIZE_BYTES then d.layer else d.chunkSize,
       flushMs := if n == CHUNK_FLUSH_MS then d.layer else d.flushMs,
       schema := if n == SCHEMA then COMPRESSION else d.schema,
       metadata := if n == USER_METADATA_HEX then Unhex(COMPRESSION) else d.metadata)
  }

  lemma ChannelLeads(d: ChannelDef)
    ensures var items := ChannelItems(d);
            && |items| == 11 && Leads(items, 2, 3) && Leads(items, 8, 9)
            && forall v: nat :: v < 11 ==> Leads(items, v, v)
  {
    hide Escape, Hex, Digits, ChannelItems;
    ChannelTokens(d);
    ChannelKeys();
    Separators();
  }

  lemma SepFacts(sep: bytes)
    requires Separates(sep)
    ensures sep != [] && !Digit(sep[0]) && Quoteless(sep)
  {
  }

  lemma BeginIsQuoteless()
    ensures Quoteless(BEGIN) && Quoteless(END) && Lacks(BEGIN, OPEN_BRACKET) && Lacks(END, OPEN_BRACKET)
  {
  }

  /** A number of a channel, which a name that ends like its key replaces by the layer. */
  lemma NumberUnder(d: ChannelDef, key: bytes, p: nat, n: u64)
    requires Wordy(key) && 4 <= p < 11 && |ChannelItems(d)| == 11 && ChannelItems(d)[p].after == IS + (Digits(n) + NEXT)
    requires FirstAt(ChannelItems(d), if Ending(d.name) == key then 2 else p, key)
    ensures NumberAt(ObjectText(ChannelItems(d)), key) == if Ending(d.name) == key then d.layer else n
  {
    hide NumberAt, AllFair, FirstAt, Leads, ItemsText, ChannelItems, Digits, Separates, Ending, Key;
    var items := ChannelItems(d);
    Seqs.Regroup(BEGIN, ItemsText(items), END);
    Separators();
    SepFacts(NEXT);
    ChannelFair(d);
    ChannelTokens(d);
    ChannelLeads(d);
    BeginIsQuoteless();
    if Ending(d.name) == key {
      NumberIn(BEGIN, items, END, 2, 3, key, d.layer, NEXT);
    } else {
      NumberIn(BEGIN, items, END, p, p, key, n, NEXT);
    }
  }

  /** A string of a channel, which a name that ends like its key replaces by the word compression. */
  lemma StringUnder(d: ChannelDef, key: bytes, j: nat, p: nat, value: bytes)
    requires Wordy(key) && 4 <= p < 10 && |ChannelItems(d)| == 11 && ChannelItems(d)[p].after == IS && ChannelItems(d)[p + 1].token == Escape(value)
    requires (j == p || (j == 8 && p == 9)) && FirstAt(ChannelItems(d), if Ending(d.name) == key then 2 else j, key)
    ensures StringAt(ObjectText(ChannelItems(d)), key) == if Ending(d.name) == key then COMPRESSION else value
  {
    hide StringAt, AllFair, FirstAt, Leads, ItemsText, ChannelItems, Digits, Separates, Ending, Key, Escape;
    var items := ChannelItems(d);
    Seqs.Regroup(BEGIN, ItemsText(items), END);
    Separators();
    SepFacts(NEXT);
    ChannelFair(d);
    ChannelTokens(d);
    ChannelLeads(d);
    BeginIsQuoteless();
    assert IS + [] == IS;
    if Ending(d.name) == key {
      CompressionEscapes();
      DigitsArePlain(d.layer);
      LacksConcat(Digits(d.layer), NEXT, QUOTE);
      StringIn(BEGIN, items, END, 2, 3, key, Digits(d.layer) + NEXT, COMPRESSION);
    } else {
      StringIn(BEGIN, items, END, j, p, key, [], value);
    }
  }

  lemma CompressionEscapes()
    ensures Escape(COMPRESSION) == COMPRESSION
  {
    hide Escape;
    ChannelKeys();
    KeyEscapes(COMPRESSION);
  }

  lemma FirstThree(d: ChannelDef)
    ensures var text := ObjectText(ChannelItems(d));
            NumberAt(text, ID) == d.id && StringAt(text, NAME) == d.name && NumberAt(text, LAYER) == d.layer
  {
    hide NumberAt, StringAt, AllFair, FirstAt, Leads, ItemsText, ChannelItems, Digits, Escape, Separates, Ending, Wordy, Text;
    var items := ChannelItems(d);
    Seqs.Regroup(BEGIN, ItemsText(items), END);
    Separators();
    SepFacts(NEXT);
    TopKeys();
    ChannelKeys();
    WordyIsKey(ID);
    WordyIsKey(NAME);
    WordyIsKey(LAYER);
    ChannelFair(d);
    ChannelTokens(d);
    ChannelStops(d);
    ChannelLeads(d);
    BeginIsQuoteless();
    assert IS + [] == IS;
    NumberIn(BEGIN, items, END, 0, 0, ID, d.id, NEXT);
    StringIn(BEGIN, items, END, 1, 1, NAME, [], d.name);
    NumberIn(BEGIN, items, END, if Ending(d.name) == LAYER then 2 else 3, 3, LAYER, d.layer, NEXT);
  }

  lemma WordyIsKey(k: bytes)
    requires Wordy(k)
    ensures Key(k)
  {
  }

  /** Every channel's printed object is read back as this, whatever its strings are. */
  lemma ChannelReads(d: ChannelDef)
    ensures ParsedChannel(ObjectText(ChannelItems(d))) == ChannelAsRead(d)
  {
    hide NumberAt, StringAt, FirstAt, ObjectText, ChannelItems, Digits, Escape, Hex, Unhex, Ending, Wordy, Text;
    ChannelKeys();
    ChannelTokens(d);
    ChannelStops(d);
    HexIsItself(d.metadata);
    HexReadsBack(d.metadata);
    FirstThree(d);
    NumberUnder(d, COMPRESSION, 4, d.compression);
    NumberUnder(d, CHUNK_SIZE_BYTES, 5, d.chunkSize);
    NumberUnder(d, CHUNK_FLUSH_MS, 6, d.flushMs);
    StringUnder(d, SCHEMA, 7, 7, d.schema);
    StringUnder(d, USER_METADATA_HEX, if Ending(d.schema) == USER_METADATA_HEX then 8 else 9, 9, Hex(d.metadata));
  }

  lemma HexIsItself(data: bytes)
    ensures Escape(Hex(data)) == Hex(data)
  {
    HexIsPlain(data);
  }

  /** The name does not end like the key of a field that differs from what is then read instead. */
  predicate Unshadowed(d: ChannelDef) {
    var n := Ending(d.name);
    && (n == COMPRESSION ==> d.compression == d.layer)
    && (n == CHUNK_SIZE_BYTES ==> d.chunkSize == d.layer)
    && (n == CHUNK_FLUSH_MS ==> d.flushMs == d.layer)
    && (n == SCHEMA ==> d.schema == COMPRESSION)
    && (n == USER_METADATA_HEX ==> d.metadata == Unhex(COMPRESSION))
  }

  /**
   * When a printed channel is read back as it was, for all channels: names may be anything, and end like
   * any key but five; what they then hide must happen to be what is found instead.
   */
  lemma ChannelReadsBack(d: ChannelDef)
    ensures ParsedChannel(ObjectText(ChannelItems(d))) == d <==> Unshadowed(d)
  {
    hide ParsedChannel, ObjectText, ChannelItems, Unhex, Ending;
    ChannelReads(d);
  }

  // ----- segments -----

  lemma SegmentFair(s: SegmentEntry)
    ensures AllFair(SegmentItems(s))
  {
    hide Wordy, Separates, Slashed, Key, Ending, NumberField, StringField, AllFair, Escape;
    Separators();
    SegmentKeys();
    EscapedFacts(s.filename);
    var a, b := StringField(FILENAME, Escape(s.filename), NEXT), NumberField(SEGMENT_INDEX, s.info.index, NEXT);
    var e, f := NumberField(START_NS, s.info.startNs, NEXT), NumberField(END_NS, s.info.endNs, NEXT);
    StringFair(FILENAME, Escape(s.filename), NEXT);
    NumberFair(SEGMENT_INDEX, s.info.index, NEXT);
    NumberFair(START_NS, s.info.startNs, NEXT);
    NumberFair(END_NS, s.info.endNs, NEXT);
    NumberFair(SIZE_BYTES, s.info.size, LAST);
    FairConcat(a, b);
    FairConcat(a + b, e);
    FairConcat(a + b + e, f);
    FairConcat(a + b + e + f, NumberField(SIZE_BYTES, s.info.size, LAST));
  }

  lemma SegmentTokens(s: SegmentEntry)
    ensures var items := SegmentItems(s);
            && |items| == 6
            && items[0] == Item(FILENAME, IS) && items[1] == Item(Escape(s.filename), NEXT)
            && items[2] == Item(SEGMENT_INDEX, IS + (Digits(s.info.index) + NEXT))
            && items[3] == Item(START_NS, IS + (Digits(s.info.startNs) + NEXT)) && items[4] == Item(END_NS, IS + (Digits(s.info.endNs) + NEXT))
            && items[5] == Item(SIZE_BYTES, IS + (Digits(s.info.size) + LAST))
  {
    hide Escape, Digits;
  }

  /** Where the search for each key of a segment stops: at the file name when that ends like the key. */
  lemma SegmentStops(s: SegmentEntry)
    ensures var items, n := SegmentItems(s), Ending(s.filename);
            && FirstAt(items, 0, FILENAME) && FirstAt(items, if n == SEGMENT_INDEX then 1 else 2, SEGMENT_INDEX)
            && FirstAt(items, if n == START_NS then 1 else 3, START_NS) && FirstAt(items, if n == END_NS then 1 else 4, END_NS)
            && FirstAt(items, if n == SIZE_BYTES then 1 else 5, SIZE_BYTES)
  {
    hide Escape, Digits, Ending, SegmentItems, Wordy, Slashed, Text;
    KeyLengths();
    SegmentKeys();
    WordyIsKey(SEGMENT_INDEX);
    WordyIsKey(START_NS);
    WordyIsKey(END_NS);
    WordyIsKey(SIZE_BYTES);
    SegmentTokens(s);
    EscapedFacts(s.filename);
  }

  lemma SegmentLeads(s: SegmentEntry)
    ensures var items := SegmentItems(s); |items| == 6 && Leads(items, 1, 2) && forall v: nat :: v < 6 ==> Leads(items, v, v)
  {
    hide Escape, Digits, SegmentItems;
    SegmentTokens(s);
    SegmentKeys();
    Separators();
  }

  /** What reading a printed segment entry gives, whatever its file name is. */
  function SegmentAsRead(s: SegmentEntry): SegmentEntry {
    var n := Ending(s.filename);
    SegmentEntry(s.filename, SegmentInfo(
      s.info.index,
      if n == START_NS then s.info.index else s.info.startNs,
      if n == END_NS then s.info.index else s.info.endNs,
      if n == SIZE_BYTES then s.info.index else s.info.size))
  }

  /** A number of a segment, which a file name that ends like its key replaces by the segment's index. */
  lemma NumberOfSegment(s: SegmentEntry, key: bytes, p: nat, n: u64, sep: bytes)
    requires Wordy(key) && 2 <= p < 6 && |SegmentItems(s)| == 6 && Separates(sep) && SegmentItems(s)[p].after == IS + (Digits(n) + sep)
    requires FirstAt(SegmentItems(s), if Ending(s.filename) == key then 1 else p, key)
    ensures NumberAt(ObjectText(SegmentItems(s)), key) == if Ending(s.filename) == key then s.info.index else n
  {
    hide NumberAt, AllFair, FirstAt, Leads, ItemsText, SegmentItems, Digits, Separates, Ending, Key;
    var items := SegmentItems(s);
    Seqs.Regroup(BEGIN, ItemsText(items), END);
    Separators();
    SepFacts(NEXT);
    SepFacts(sep);
    SegmentFair(s);
    SegmentTokens(s);
    SegmentLeads(s);
    BeginIsQuoteless();
    if Ending(s.filename) == key {
      NumberIn(BEGIN, items, END, 1, 2, key, s.info.index, NEXT);
    } else {
      NumberIn(BEGIN, items, END, p, p, key, n, sep);
    }
  }

  lemma FileNameReads(s: SegmentEntry)
    ensures StringAt(ObjectText(SegmentItems(s)), FILENAME) == s.filename
  {
    hide StringAt, AllFair, FirstAt, Leads, ItemsText, SegmentItems, Digits, Escape, Ending, Wordy, Text;
    var items := SegmentItems(s);
    Seqs.Regroup(BEGIN, ItemsText(items), END);
    SegmentKeys();
    WordyIsKey(FILENAME);
    SegmentFair(s);
    SegmentTokens(s);
    SegmentStops(s);
    SegmentLeads(s);
    BeginIsQuoteless();
    assert IS + [] == IS;
    StringIn(BEGIN, items, END, 0, 0, FILENAME, [], s.filename);
  }

  /** Every segment's printed object is read back as this, whatever its file name is. */
  lemma SegmentReads(s: SegmentEntry)
    requires s.info.size <= U64_MAX
    ensures ParsedSegment(ObjectText(SegmentItems(s))) == SegmentAsRead(s)
  {
    hide NumberAt, StringAt, FirstAt, ObjectText, SegmentItems, Digits, Escape, Ending, Wordy, Text, Separates;
    Separators();
    SegmentKeys();
    SegmentTokens(s);
    SegmentStops(s);
    FileNameReads(s);
    NumberOfSegment(s, SEGMENT_INDEX, 2, s.info.index, NEXT);
    NumberOfSegment(s, START_NS, 3, s.info.startNs, NEXT);
    NumberOfSegment(s, END_NS, 4, s.info.endNs, NEXT);
    NumberOfSegment(s, SIZE_BYTES, 5, s.info.size, LAST);
  }

  /** The file name does not end like the key of a number that differs from the segment's index. */
  predicate InFull(s: SegmentEntry) {
    var n := Ending(s.filename);
    && (n == START_NS ==> s.info.startNs == s.info.index)
    && (n == END_NS ==> s.info.endNs == s.info.index)
    && (n == SIZE_BYTES ==> s.info.size == s.info.index)
  }

  /** When a printed segment entry is read back as it was. */
  lemma SegmentReadsBack(s: SegmentEntry)
    requires s.info.size <= U64_MAX
    ensures ParsedSegment(ObjectText(SegmentItems(s))) == s <==> InFull(s)
  {
    hide ParsedSegment, ObjectText, SegmentItems, Ending;
    SegmentReads(s);
  }
}
