/** The session manifest: its printed text, and what a first-occurrence search reads out of that text. */
module Manifest {
  import opened Bytes
  import opened Recording
  import opened Json
  import Seqs

  datatype SegmentEntry = SegmentEntry(filename: bytes, info: SegmentInfo)

  datatype SessionManifest = SessionManifest(
    version: bytes, id: bytes, createdAtNs: u64, channels: seq<ChannelDef>, segments: seq<SegmentEntry>)

  const RECORDER_VERSION: bytes := Text("recorder_version")
  const ID: bytes := Text("id")
  const CREATED_AT_NS: bytes := Text("created_at_ns")
  const CHANNELS: bytes := Text("channels")
  const SEGMENTS: bytes := Text("segments")
  const NAME: bytes := Text("name")
  const LAYER: bytes := Text("layer")
  const COMPRESSION: bytes := Text("compression")
  const CHUNK_SIZE_BYTES: bytes := Text("chunk_size_bytes")
  const CHUNK_FLUSH_MS: bytes := Text("chunk_flush_ms")
  const SCHEMA: bytes := Text("schema")
  const USER_METADATA_HEX: bytes := Text("user_metadata_hex")
  const FILENAME: bytes := Text("filename")
  const SEGMENT_INDEX: bytes := Text("segment_index")
  const START_NS: bytes := Text("start_ns")
  const END_NS: bytes := Text("end_ns")
  const SIZE_BYTES: bytes := Text("size_bytes")

  // ----- the text -----

  /** A quoted string, and the text up to the next quote. */
  datatype Item = Item(token: bytes, after: bytes)

  function ItemsText(items: seq<Item>): bytes {
    if items == [] then [] else Quoted(items[0].token) + items[0].after + ItemsText(items[1..])
  }

  const IS: bytes := Text(": ")
  const NEXT: bytes := Text(",\n      ")
  const NEXT_TOP: bytes := Text(",\n  ")
  const LAST: bytes := Text("\n    ")
  const BEGIN: bytes := Text("{\n      ")
  const END: bytes := Text("}")

  function NumberField(key: bytes, n: nat, sep: bytes): seq<Item> { [Item(key, IS + (Digits(n) + sep))] }

  function StringField(key: bytes, value: bytes, sep: bytes): seq<Item> { [Item(key, IS), Item(value, sep)] }

  function ChannelItems(d: ChannelDef): seq<Item> {
    NumberField(ID, d.id, NEXT)
    + StringField(NAME, Escape(d.name), NEXT)
    + NumberField(LAYER, d.layer, NEXT)
    + NumberField(COMPRESSION, d.compression, NEXT)
    + NumberField(CHUNK_SIZE_BYTES, d.chunkSize, NEXT)
    + NumberField(CHUNK_FLUSH_MS, d.flushMs, NEXT)
    + StringField(SCHEMA, Escape(d.schema), NEXT)
    + StringField(USER_METADATA_HEX, Hex(d.metadata), LAST)
  }

  function SegmentItems(s: SegmentEntry): seq<Item> {
    StringField(FILENAME, Escape(s.filename), NEXT)
    + NumberField(SEGMENT_INDEX, s.info.index, NEXT)
    + NumberField(START_NS, s.info.startNs, NEXT)
    + NumberField(END_NS, s.info.endNs, NEXT)
    + NumberField(SIZE_BYTES, s.info.size, LAST)
  }

  function TopItems(m: SessionManifest): seq<Item> {
    StringField(RECORDER_VERSION, Escape(m.version), NEXT_TOP)
    + StringField(ID, Hex(m.id), NEXT_TOP)
    + NumberField(CREATED_AT_NS, m.createdAtNs, NEXT_TOP)
    + [Item(CHANNELS, Text(": [\n"))]
  }

  function ObjectText(items: seq<Item>): bytes { BEGIN + ItemsText(items) + END }

  function ChannelTexts(channels: seq<ChannelDef>): (r: seq<bytes>)
    ensures |r| == |channels|
    ensures forall i :: 0 <= i < |channels| ==> r[i] == ObjectText(ChannelItems(channels[i]))
  {
    seq(|channels|, i requires 0 <= i < |channels| => ObjectText(ChannelItems(channels[i])))
  }

  function SegmentTexts(segments: seq<SegmentEntry>): (r: seq<bytes>)
    ensures |r| == |segments|
    ensures forall i :: 0 <= i < |segments| ==> r[i] == ObjectText(SegmentItems(segments[i]))
  {
    seq(|segments|, i requires 0 <= i < |segments| => ObjectText(SegmentItems(segments[i])))
  }

  /** Objects one to a line, all but the last followed by a comma. */
  function ListText(objects: seq<bytes>): bytes {
    if objects == [] then []
    else Text("    ") + objects[0] + (if |objects| > 1 then Text(",\n") else Text("\n")) + ListText(objects[1..])
  }

  function ManifestText(m: SessionManifest): bytes {
    Text("{\n  ") + ItemsText(TopItems(m))
    + (ListText(ChannelTexts(m.channels)) + Text("  ],\n  ")
       + (ItemsText([Item(SEGMENTS, Text(": [\n"))]) + (ListText(SegmentTexts(m.segments)) + Text("  ]\n}\n"))))
  }

  // ----- what is read -----

  /** The casts to narrower types. */
  function Low8(n: u64): byte { n % 0x100 }

  function Low16(n: u64): u16 { n % 0x1_0000 }

  function Low32(n: u64): u32 { n % 0x1_0000_0000 }

  function ParsedChannel(obj: bytes): ChannelDef {
    ChannelDef(
      Low16(NumberAt(obj, ID)), StringAt(obj, NAME),
      Low8(NumberAt(obj, LAYER)), Low8(NumberAt(obj, COMPRESSION)),
      Low32(NumberAt(obj, CHUNK_SIZE_BYTES)), Low32(NumberAt(obj, CHUNK_FLUSH_MS)),
      StringAt(obj, SCHEMA), Unhex(StringAt(obj, USER_METADATA_HEX)))
  }

  function ParsedSegment(obj: bytes): SegmentEntry {
    SegmentEntry(
      StringAt(obj, FILENAME),
      SegmentInfo(Low32(NumberAt(obj, SEGMENT_INDEX)), NumberAt(obj, START_NS), NumberAt(obj, END_NS), NumberAt(obj, SIZE_BYTES)))
  }

  function ParsedChannels(objects: seq<bytes>): seq<ChannelDef> {
    if objects == [] then [] else ParsedChannels(objects[..|objects| - 1]) + [ParsedChannel(objects[|objects| - 1])]
  }

  function ParsedSegments(objects: seq<bytes>): seq<SegmentEntry> {
    if objects == [] then [] else ParsedSegments(objects[..|objects| - 1]) + [ParsedSegment(objects[|objects| - 1])]
  }

  /** An id that is not 32 digits long is left at zero. */
  function ParsedId(hex: bytes): bytes { if |hex| == 32 then Unhex(hex) else seq(16, _ => 0) }

  function ParsedManifest(json: bytes): SessionManifest {
    SessionManifest(
      StringAt(json, RECORDER_VERSION), ParsedId(StringAt(json, ID)), NumberAt(json, CREATED_AT_NS),
      ParsedChannels(ObjectsAt(json, CHANNELS)), ParsedSegments(ObjectsAt(json, SEGMENTS)))
  }

  // ----- printing and parsing -----

  method PrintNumber(key: bytes, n: nat, sep: bytes) returns (r: bytes)
    ensures r == ItemsText(NumberField(key, n, sep))
  {
    r := Quoted(key) + IS;
    r := r + Digits(n);
    r := r + sep;
    NumberText(key, n, sep);
  }

  lemma NumberText(key: bytes, n: nat, sep: bytes)
    ensures ItemsText(NumberField(key, n, sep)) == ((Quoted(key) + IS) + Digits(n)) + sep
  {
    hide Quoted, Digits;
    var items := NumberField(key, n, sep);
    assert items[1..] == [];
    assert ItemsText(items) == Quoted(key) + items[0].after + [];
  }

  method PrintString(key: bytes, escaped: bytes, sep: bytes) returns (r: bytes)
    ensures r == ItemsText(StringField(key, escaped, sep))
  {
    r := Quoted(key) + IS;
    r := r + [QUOTE] + escaped + [QUOTE];
    r := r + sep;
    StringText(key, escaped, sep);
  }

  lemma StringText(key: bytes, value: bytes, sep: bytes)
    ensures ItemsText(StringField(key, value, sep)) == ((Quoted(key) + IS) + [QUOTE] + value + [QUOTE]) + sep
  {
    var items := StringField(key, value, sep);
    assert items[1..] == [items[1]] && items[1..][1..] == [];
    assert ItemsText(items[1..]) == Quoted(value) + sep + [];
  }

  lemma {:induction false} ItemsConcat(a: seq<Item>, b: seq<Item>)
    ensures ItemsText(a + b) == ItemsText(a) + ItemsText(b)
    decreases |a|
  {
    hide Quoted;
    if a == [] {
      assert a + b == b;
    } else {
      assert (a + b)[1..] == a[1..] + b;
      ItemsConcat(a[1..], b);
      Seqs.Regroup(Quoted(a[0].token) + a[0].after, ItemsText(a[1..]), ItemsText(b));
    }
  }

  method PrintChannel(d: ChannelDef) returns (r: bytes)
    ensures r == ObjectText(ChannelItems(d))
  {
    hide Quoted, NumberField, StringField, ItemsText, Escape, Hex;
    r := PrintNumber(ID, d.id, NEXT);
    var name := JsonEscape(d.name);
    var part := PrintString(NAME, name, NEXT);
    r := r + part;
    part := PrintNumber(LAYER, d.layer, NEXT);
    r := r + part;
    part := PrintNumber(COMPRESSION, d.compression, NEXT);
    r := r + part;
    part := PrintNumber(CHUNK_SIZE_BYTES, d.chunkSize, NEXT);
    r := r + part;
    part := PrintNumber(CHUNK_FLUSH_MS, d.flushMs, NEXT);
    r := r + part;
    var schema := JsonEscape(d.schema);
    part := PrintString(SCHEMA, schema, NEXT);
    r := r + part;
    var hex := ToHex(d.metadata);
    part := PrintString(USER_METADATA_HEX, hex, LAST);
    r := r + part;
    ChannelItemsText(d);
    r := BEGIN + r + END;
  }

  lemma ChannelItemsText(d: ChannelDef)
    ensures ItemsText(ChannelItems(d)) ==
            ItemsText(NumberField(ID, d.id, NEXT)) + ItemsText(StringField(NAME, Escape(d.name), NEXT))
            + ItemsText(NumberField(LAYER, d.layer, NEXT)) + ItemsText(NumberField(COMPRESSION, d.compression, NEXT))
            + ItemsText(NumberField(CHUNK_SIZE_BYTES, d.chunkSize, NEXT)) + ItemsText(NumberField(CHUNK_FLUSH_MS, d.flushMs, NEXT))
            + ItemsText(StringField(SCHEMA, Escape(d.schema), NEXT)) + ItemsText(StringField(USER_METADATA_HEX, Hex(d.metadata), LAST))
  {
    hide Quoted, NumberField, StringField, ItemsText, Escape, Hex;
    var a, b := NumberField(ID, d.id, NEXT), StringField(NAME, Escape(d.name), NEXT);
    var e, f := NumberField(LAYER, d.layer, NEXT), NumberField(COMPRESSION, d.compression, NEXT);
    var g, h := NumberField(CHUNK_SIZE_BYTES, d.chunkSize, NEXT), NumberField(CHUNK_FLUSH_MS, d.flushMs, NEXT);
    var i, j := StringField(SCHEMA, Escape(d.schema), NEXT), StringField(USER_METADATA_HEX, Hex(d.metadata), LAST);
    ItemsConcat(a, b);
    ItemsConcat(a + b, e);
    ItemsConcat(a + b + e, f);
    ItemsConcat(a + b + e + f, g);
    ItemsConcat(a + b + e + f + g, h);
    ItemsConcat(a + b + e + f + g + h, i);
    ItemsConcat(a + b + e + f + g + h + i, j);
  }

  method PrintSegment(s: SegmentEntry) returns (r: bytes)
    ensures r == ObjectText(SegmentItems(s))
  {
    hide Quoted, NumberField, StringField, ItemsText, Escape;
    var filename := JsonEscape(s.filename);
    r := PrintString(FILENAME, filename, NEXT);
    var part := PrintNumber(SEGMENT_INDEX, s.info.index, NEXT);
    r := r + part;
    part := PrintNumber(START_NS, s.info.startNs, NEXT);
    r := r + part;
    part := PrintNumber(END_NS, s.info.endNs, NEXT);
    r := r + part;
    part := PrintNumber(SIZE_BYTES, s.info.size, LAST);
    r := r + part;
    SegmentItemsText(s);
    r := BEGIN + r + END;
  }

  lemma SegmentItemsText(s: SegmentEntry)
    ensures ItemsText(SegmentItems(s)) ==
            ItemsText(StringField(FILENAME, Escape(s.filename), NEXT)) + ItemsText(NumberField(SEGMENT_INDEX, s.info.index, NEXT))
            + ItemsText(NumberField(START_NS, s.info.startNs, NEXT)) + ItemsText(NumberField(END_NS, s.info.endNs, NEXT))
            + ItemsText(NumberField(SIZE_BYTES, s.info.size, LAST))
  {
    hide Quoted, NumberField, StringField, ItemsText, Escape;
    var a, b := StringField(FILENAME, Escape(s.filename), NEXT), NumberField(SEGMENT_INDEX, s.info.index, NEXT);
    var e, f := NumberField(START_NS, s.info.startNs, NEXT), NumberField(END_NS, s.info.endNs, NEXT);
    ItemsConcat(a, b);
    ItemsConcat(a + b, e);
    ItemsConcat(a + b + e, f);
    ItemsConcat(a + b + e + f, NumberField(SIZE_BYTES, s.info.size, LAST));
  }

  /** Appends one object and its separator to what has been printed of a list. */
  lemma ListStep(done: bytes, objects: seq<bytes>, i: nat)
    requires i < |objects|
    ensures (done + (Text("    ") + objects[i] + (if i + 1 < |objects| then Text(",\n") else Text("\n")))) + ListText(objects[i + 1..])
            == done + ListText(objects[i..])
  {
    hide Text;
    assert objects[i..][1..] == objects[i + 1..];
    Seqs.Regroup(done, Text("    ") + objects[i] + (if i + 1 < |objects| then Text(",\n") else Text("\n")), ListText(objects[i + 1..]));
  }

  method PrintChannels(channels: seq<ChannelDef>) returns (r: bytes)
    ensures r == ListText(ChannelTexts(channels))
  {
    hide Text, ObjectText, ListText;
    ghost var objects := ChannelTexts(channels);
    r := [];
    assert objects[0..] == objects && r + ListText(objects) == ListText(objects);
    for i := 0 to |channels|
      invariant r + ListText(objects[i..]) == ListText(objects)
    {
      var obj := PrintChannel(channels[i]);
      ListStep(r, objects, i);
      r := r + (Text("    ") + obj + (if i + 1 < |channels| then Text(",\n") else Text("\n")));
    }
    NoList();
    assert objects[|objects|..] == [] && r + [] == r;
  }

  lemma NoList()
    ensures ListText([]) == []
  {
  }

  method PrintSegments(segments: seq<SegmentEntry>) returns (r: bytes)
    ensures r == ListText(SegmentTexts(segments))
  {
    hide Text, ObjectText, ListText;
    ghost var objects := SegmentTexts(segments);
    r := [];
    assert objects[0..] == objects && r + ListText(objects) == ListText(objects);
    for i := 0 to |segments|
      invariant r + ListText(objects[i..]) == ListText(objects)
    {
      var obj := PrintSegment(segments[i]);
      ListStep(r, objects, i);
      r := r + (Text("    ") + obj + (if i + 1 < |segments| then Text(",\n") else Text("\n")));
    }
    NoList();
    assert objects[|objects|..] == [] && r + [] == r;
  }

  /** The text WriteManifest puts into the file. */
  method PrintManifest(m: SessionManifest) returns (r: bytes)
    ensures r == ManifestText(m)
  {
    hide Quoted, NumberField, StringField, ItemsText, Escape, Hex, Text, ListText, ChannelTexts, SegmentTexts;
    var version := JsonEscape(m.version);
    r := PrintString(RECORDER_VERSION, version, NEXT_TOP);
    var hex := ToHex(m.id);
    var part := PrintString(ID, hex, NEXT_TOP);
    r := r + part;
    part := PrintNumber(CREATED_AT_NS, m.createdAtNs, NEXT_TOP);
    r := r + part;
    part := Quoted(CHANNELS) + Text(": [\n");
    r := r + part;
    TopItemsText(m);
    var channels := PrintChannels(m.channels);
    var segments := PrintSegments(m.segments);
    OneItem(SEGMENTS, Text(": [\n"));
    r := Text("{\n  ") + r + (channels + Text("  ],\n  ") + ((Quoted(SEGMENTS) + Text(": [\n")) + (segments + Text("  ]\n}\n"))));
  }

  lemma OneItem(token: bytes, after: bytes)
    ensures ItemsText([Item(token, after)]) == Quoted(token) + after
  {
    var item := Item(token, after);
    assert [item][1..] == [];
    assert Quoted(token) + after + [] == Quoted(token) + after;
  }

  lemma TopItemsText(m: SessionManifest)
    ensures ItemsText(TopItems(m)) ==
            ItemsText(StringField(RECORDER_VERSION, Escape(m.version), NEXT_TOP)) + ItemsText(StringField(ID, Hex(m.id), NEXT_TOP))
            + ItemsText(NumberField(CREATED_AT_NS, m.createdAtNs, NEXT_TOP)) + (Quoted(CHANNELS) + Text(": [\n"))
  {
    hide Quoted, NumberField, StringField, ItemsText, Escape, Hex, Text;
    var a, b := StringField(RECORDER_VERSION, Escape(m.version), NEXT_TOP), StringField(ID, Hex(m.id), NEXT_TOP);
    var e, f := NumberField(CREATED_AT_NS, m.createdAtNs, NEXT_TOP), [Item(CHANNELS, Text(": [\n"))];
    ItemsConcat(a, b);
    ItemsConcat(a + b, e);
    ItemsConcat(a + b + e, f);
    OneItem(CHANNELS, Text(": [\n"));
  }

  method ParseChannel(obj: bytes) returns (d: ChannelDef)
    ensures d == ParsedChannel(obj)
  {
    hide NumberAt, StringAt, Unhex, Low8, Low16, Low32;
    var id := ExtractJsonUint64(obj, ID);
    var name := ExtractJsonString(obj, NAME);
    var layer := ExtractJsonUint64(obj, LAYER);
    var compression := ExtractJsonUint64(obj, COMPRESSION);
    var chunkSize := ExtractJsonUint64(obj, CHUNK_SIZE_BYTES);
    var flushMs := ExtractJsonUint64(obj, CHUNK_FLUSH_MS);
    var schema := ExtractJsonString(obj, SCHEMA);
    var hex := ExtractJsonString(obj, USER_METADATA_HEX);
    var metadata := FromHex(hex);
    d := ChannelDef(Low16(id), name, Low8(layer), Low8(compression), Low32(chunkSize), Low32(flushMs), schema, metadata);
  }

  method ParseSegment(obj: bytes) returns (s: SegmentEntry)
    ensures s == ParsedSegment(obj)
  {
    hide NumberAt, StringAt, Low32;
    var filename := ExtractJsonString(obj, FILENAME);
    var index := ExtractJsonUint64(obj, SEGMENT_INDEX);
    var startNs := ExtractJsonUint64(obj, START_NS);
    var endNs := ExtractJsonUint64(obj, END_NS);
    var size := ExtractJsonUint64(obj, SIZE_BYTES);
    s := SegmentEntry(filename, SegmentInfo(Low32(index), startNs, endNs, size));
  }

  /** What ReadManifest takes from the text of the file. */
  method ParseManifest(json: bytes) returns (m: SessionManifest)
    ensures m == ParsedManifest(json)
  {
    hide NumberAt, StringAt, ObjectsAt, ParsedChannel, ParsedSegment, Unhex;
    var version := ExtractJsonString(json, RECORDER_VERSION);
    var createdAtNs := ExtractJsonUint64(json, CREATED_AT_NS);
    var idHex := ExtractJsonString(json, ID);
    var id: bytes := seq(16, _ => 0);
    if |idHex| == 32 {
      id := FromHex(idHex);
    }
    var channels, segments := [], [];
    var objects := ExtractJsonObjects(json, CHANNELS);
    for i := 0 to |objects|
      invariant channels == ParsedChannels(objects[..i])
    {
      assert objects[..i + 1][..i] == objects[..i];
      var d := ParseChannel(objects[i]);
      channels := channels + [d];
    }
    assert objects[..|objects|] == objects;
    objects := ExtractJsonObjects(json, SEGMENTS);
    for i := 0 to |objects|
      invariant segments == ParsedSegments(objects[..i])
    {
      assert objects[..i + 1][..i] == objects[..i];
      var s := ParseSegment(objects[i]);
      segments := segments + [s];
    }
    assert objects[..|objects|] == objects;
    m := SessionManifest(version, id, createdAtNs, channels, segments);
  }
}
