/** Counting brackets: how the printed lists are cut into their objects again. */
module Bracketing {
  import opened Bytes
  import opened Outcomes
  import opened Recording
  import opened Json
  import opened Manifest
  import opened KeySearch
  import opened ObjectReading
  import Seqs

  // ----- brackets in strings -----

  /** Brackets and braces close what they open: counted together, and braces counted alone. */
  predicate Balanced(s: bytes, open: nat, braces: nat) {
    if s == [] then open == 0 && braces == 0
    else if s[0] == OPEN_BRACKET then Balanced(s[1..], open + 1, braces)
    else if s[0] == OPEN_BRACE then Balanced(s[1..], open + 1, braces + 1)
    else if s[0] == CLOSE_BRACKET then open > 0 && Balanced(s[1..], open - 1, braces)
    else if s[0] == CLOSE_BRACE then open > 0 && braces > 0 && Balanced(s[1..], open - 1, braces - 1)
    else Balanced(s[1..], open, braces)
  }

  ghost predicate Even(s: bytes) { Balanced(s, 0, 0) }

  lemma {:induction false} BalancedConcat(a: bytes, b: bytes, open: nat, braces: nat)
    requires Balanced(a, open, braces) && Even(b)
    ensures Balanced(a + b, open, braces)
    decreases |a|
  {
    if a == [] {
      assert a + b == b;
    } else {
      var x, rest := a[0], a[1..];
      assert (a + b)[0] == x && (a + b)[1..] == rest + b;
      if x == OPEN_BRACKET {
        BalancedConcat(rest, b, open + 1, braces);
      } else if x == OPEN_BRACE {
        BalancedConcat(rest, b, open + 1, braces + 1);
      } else if x == CLOSE_BRACKET {
        BalancedConcat(rest, b, open - 1, braces);
      } else if x == CLOSE_BRACE {
        BalancedConcat(rest, b, open - 1, braces - 1);
      } else {
        BalancedConcat(rest, b, open, braces);
      }
    }
  }

  lemma {:induction false} BracketlessIsEven(s: bytes)
    requires Bracketless(s)
    ensures Even(s)
  {
    if s != [] {
      assert !Bracket(s[0]);
      BracketlessIsEven(s[1..]);
    }
  }

  lemma {:induction false} EscapeFront(b: byte, s: bytes)
    ensures Escape([b] + s) == EscapeOne(b) + Escape(s)
    decreases |s|
  {
    hide EscapeOne;
    if s == [] {
      assert [b] + s == [b] && [b][..0] == [];
    } else {
      var n := |s| - 1;
      assert ([b] + s)[..|[b] + s| - 1] == [b] + s[..n];
      EscapeFront(b, s[..n]);
      Seqs.Regroup(EscapeOne(b), Escape(s[..n]), EscapeOne(s[n]));
    }
  }

  /** Bytes that are no brackets do not count. */
  lemma {:induction false} PlainFront(x: bytes, s: bytes, open: nat, braces: nat)
    requires Bracketless(x)
    ensures Balanced(x + s, open, braces) == Balanced(s, open, braces)
    decreases |x|
  {
    if x == [] {
      assert x + s == s;
    } else {
      assert (x + s)[0] == x[0] && !Bracket(x[0]) && (x + s)[1..] == x[1..] + s;
      PlainFront(x[1..], s, open, braces);
    }
  }

  lemma OneBracket(b: byte)
    ensures if Bracket(b) then EscapeOne(b) == [b] else Bracketless(EscapeOne(b))
  {
  }

  /** Escaping keeps the brackets. */
  lemma {:induction false} EscapeBalanced(s: bytes, open: nat, braces: nat)
    requires Balanced(s, open, braces)
    ensures Balanced(Escape(s), open, braces)
    decreases |s|
  {
    hide EscapeOne, Escape;
    if s == [] {
      EscapeOfNothing();
    } else {
      var b, rest := s[0], s[1..];
      assert s == [b] + rest;
      EscapeFront(b, rest);
      OneBracket(b);
      assert ([b] + Escape(rest))[1..] == Escape(rest);
      if b == OPEN_BRACKET {
        EscapeBalanced(rest, open + 1, braces);
      } else if b == OPEN_BRACE {
        EscapeBalanced(rest, open + 1, braces + 1);
      } else if b == CLOSE_BRACKET {
        EscapeBalanced(rest, open - 1, braces);
      } else if b == CLOSE_BRACE {
        EscapeBalanced(rest, open - 1, braces - 1);
      } else {
        EscapeBalanced(rest, open, braces);
        PlainFront(EscapeOne(b), Escape(rest), open, braces);
      }
    }
  }

  lemma EscapeOfNothing()
    ensures Escape([]) == []
  {
  }

  lemma {:induction false} EscapeLacksOpen(s: bytes)
    requires Lacks(s, OPEN_BRACKET)
    ensures Lacks(Escape(s), OPEN_BRACKET)
    decreases |s|
  {
    if s != [] {
      EscapeLacksOpen(s[..|s| - 1]);
    }
  }

  /** An item whose brackets close each other. */
  ghost predicate Level(it: Item) { Even(it.token) && Bracketless(it.after) }

  ghost predicate AllLevel(items: seq<Item>) { forall i :: 0 <= i < |items| ==> Level(items[i]) }

  lemma {:induction false} ItemsEven(items: seq<Item>)
    requires AllLevel(items)
    ensures Even(ItemsText(items))
    decreases |items|
  {
    hide Even;
    if items == [] {
      BracketlessIsEven([]);
    } else {
      var it, rest := items[0], ItemsText(items[1..]);
      assert Level(it);
      ItemsEven(items[1..]);
      BracketlessIsEven([QUOTE]);
      BracketlessIsEven(it.after);
      EvenConcat([QUOTE], it.token);
      EvenConcat([QUOTE] + it.token, [QUOTE]);
      EvenConcat(Quoted(it.token), it.after);
      EvenConcat(Quoted(it.token) + it.after, rest);
    }
  }

  lemma EvenConcat(a: bytes, b: bytes)
    requires Even(a) && Even(b)
    ensures Even(a + b)
  {
    BalancedConcat(a, b, 0, 0);
  }

  lemma KeyIsLevel(k: bytes)
    requires Key(k)
    ensures Even(k)
  {
    hide Balanced;
    assert Bracketless(k);
    BracketlessIsEven(k);
  }

  lemma ChannelLevel(d: ChannelDef)
    requires Even(d.name) && Even(d.schema)
    ensures AllLevel(ChannelItems(d))
  {
    hide Escape, Hex, Digits, ChannelItems, Even, Text, Bracketless;
    ChannelTokens(d);
    KeysAreLevel();
    Escaped(d.name);
    Escaped(d.schema);
    HexLevel(d.metadata);
    SepLevel();
    NumberLevel(d.id, NEXT);
    NumberLevel(d.layer, NEXT);
    NumberLevel(d.compression, NEXT);
    NumberLevel(d.chunkSize, NEXT);
    NumberLevel(d.flushMs, NEXT);
  }

  lemma HexLevel(data: bytes)
    ensures Even(Hex(data))
  {
    HexIsPlain(data);
    BracketlessIsEven(Hex(data));
  }

  lemma SepLevel()
    ensures Bracketless(IS) && Bracketless(NEXT) && Bracketless(LAST)
  {
    Separators();
  }

  lemma Escaped(s: bytes)
    requires Even(s)
    ensures Even(Escape(s))
  {
    EscapeBalanced(s, 0, 0);
  }

  lemma NumberLevel(n: nat, sep: bytes)
    requires Bracketless(sep)
    ensures Bracketless(IS + (Digits(n) + sep))
  {
    hide Digits;
    DigitsArePlain(n);
    IsPieces();
  }

  lemma KeysAreLevel()
    ensures Even(ID) && Even(NAME) && Even(LAYER) && Even(COMPRESSION) && Even(CHUNK_SIZE_BYTES) && Even(CHUNK_FLUSH_MS) && Even(SCHEMA)
    ensures Even(USER_METADATA_HEX) && Even(FILENAME) && Even(SEGMENT_INDEX) && Even(START_NS) && Even(END_NS) && Even(SIZE_BYTES)
  {
    hide Key, Even, Text, Ending;
    TopKeys();
    ChannelKeys();
    SegmentKeys();
    KeyIsLevel(ID);
    KeyIsLevel(NAME);
    KeyIsLevel(LAYER);
    KeyIsLevel(COMPRESSION);
    KeyIsLevel(CHUNK_SIZE_BYTES);
    KeyIsLevel(CHUNK_FLUSH_MS);
    KeyIsLevel(SCHEMA);
    KeyIsLevel(USER_METADATA_HEX);
    KeyIsLevel(FILENAME);
    KeyIsLevel(SEGMENT_INDEX);
    KeyIsLevel(START_NS);
    KeyIsLevel(END_NS);
    KeyIsLevel(SIZE_BYTES);
  }

  lemma SegmentLevel(s: SegmentEntry)
    requires Even(s.filename)
    ensures AllLevel(SegmentItems(s))
  {
    hide Escape, Digits, SegmentItems, Even, Text, Bracketless;
    SegmentTokens(s);
    KeysAreLevel();
    Escaped(s.filename);
    SepLevel();
    NumberLevel(s.info.index, NEXT);
    NumberLevel(s.info.startNs, NEXT);
    NumberLevel(s.info.endNs, NEXT);
    NumberLevel(s.info.size, LAST);
  }

  // ----- the arrays -----

  /** An object as it stands in the text: braces around something whose brackets close each other. */
  ghost predicate Boxed(obj: bytes) {
    |obj| >= 2 && obj[0] == OPEN_BRACE && obj[|obj| - 1] == CLOSE_BRACE && Even(obj[1..|obj| - 1])
  }

  lemma ObjectIsBoxed(items: seq<Item>)
    requires AllLevel(items)
    ensures Boxed(ObjectText(items))
  {
    hide AllLevel, ItemsText, Even;
    ItemsEven(items);
    var obj := ObjectText(items);
    assert BEGIN == [OPEN_BRACE, 10, 32, 32, 32, 32, 32, 32] && END == [CLOSE_BRACE];
    assert obj[1..|obj| - 1] == BEGIN[1..] + ItemsText(items);
    assert Bracketless(BEGIN[1..]);
    BracketlessIsEven(BEGIN[1..]);
    EvenConcat(BEGIN[1..], ItemsText(items));
  }

  function Shifted(end: Option<nat>, n: nat): Option<nat> {
    match end case Some(k) => Some(k + n) case None => None
  }

  /** The search for the end of an array passes over text whose brackets close each other. */
  lemma {:induction false} EndPasses(x: bytes, y: bytes, depth: int, open: nat, braces: nat)
    requires depth >= 1 && Balanced(x, open, braces)
    ensures ArrayEnd(x + y, depth + open) == Shifted(ArrayEnd(y, depth), |x|)
    decreases |x|
  {
    if x == [] {
      assert x + y == y;
    } else {
      var b, rest := x[0], x[1..];
      assert (x + y)[0] == b && (x + y)[1..] == rest + y;
      if b == OPEN_BRACKET {
        EndPasses(rest, y, depth, open + 1, braces);
      } else if b == OPEN_BRACE {
        EndPasses(rest, y, depth, open + 1, braces + 1);
      } else if b == CLOSE_BRACKET {
        EndPasses(rest, y, depth, open - 1, braces);
      } else if b == CLOSE_BRACE {
        EndPasses(rest, y, depth, open - 1, braces - 1);
      } else {
        EndPasses(rest, y, depth, open, braces);
      }
    }
  }

  lemma PlainPasses(x: bytes, y: bytes)
    requires Bracketless(x)
    ensures ArrayEnd(x + y, 1) == Shifted(ArrayEnd(y, 1), |x|)
  {
    BracketlessIsEven(x);
    EndPasses(x, y, 1, 0, 0);
  }

  lemma EndPassesBox(obj: bytes, y: bytes)
    requires Boxed(obj)
    ensures ArrayEnd(obj + y, 1) == Shifted(ArrayEnd(y, 1), |obj|)
  {
    hide Balanced;
    var inner := obj[1..|obj| - 1];
    var close := [CLOSE_BRACE] + y;
    assert obj + y == [OPEN_BRACE] + (inner + close);
    assert (obj + y)[1..] == inner + close;
    EndPasses(inner, close, 2, 0, 0);
    assert close[1..] == y;
  }

  lemma {:induction false} ObjectsPass(x: bytes, y: bytes, depth: int)
    requires Bracketless(x)
    ensures Objects(x + y, depth, None) == Objects(y, depth, None)
    decreases |x|
  {
    if x == [] {
      assert x + y == y;
    } else {
      assert (x + y)[1..] == x[1..] + y && !Bracket(x[0]);
      ObjectsPass(x[1..], y, depth);
    }
  }

  /** An object that has been opened grows over text whose braces close each other. */
  lemma {:induction false} ObjectGrows(x: bytes, y: bytes, text: bytes, open: nat, braces: nat)
    requires Balanced(x, open, braces)
    ensures Objects(x + y, 1 + braces, Some(text)) == Objects(y, 1, Some(text + x))
    decreases |x|
  {
    if x == [] {
      assert x + y == y && text + x == text;
    } else {
      var b, rest := x[0], x[1..];
      assert (x + y)[0] == b && (x + y)[1..] == rest + y;
      assert (text + [b]) + rest == text + x;
      if b == OPEN_BRACKET {
        ObjectGrows(rest, y, text + [b], open + 1, braces);
      } else if b == OPEN_BRACE {
        ObjectGrows(rest, y, text + [b], open + 1, braces + 1);
      } else if b == CLOSE_BRACKET {
        ObjectGrows(rest, y, text + [b], open - 1, braces);
      } else if b == CLOSE_BRACE {
        ObjectGrows(rest, y, text + [b], open - 1, braces - 1);
      } else {
        ObjectGrows(rest, y, text + [b], open, braces);
      }
    }
  }

  lemma ObjectTaken(obj: bytes, y: bytes)
    requires Boxed(obj)
    ensures Objects(obj + y, 0, None) == [obj] + Objects(y, 0, None)
  {
    hide Balanced;
    var inner := obj[1..|obj| - 1];
    var close := [CLOSE_BRACE] + y;
    assert obj + y == [OPEN_BRACE] + (inner + close);
    assert (obj + y)[1..] == inner + close;
    ObjectGrows(inner, close, [OPEN_BRACE], 0, 0);
    assert close[1..] == y;
    assert ([OPEN_BRACE] + inner) + [CLOSE_BRACE] == obj;
  }

  ghost predicate AllBoxed(objects: seq<bytes>) { forall i :: 0 <= i < |objects| ==> Boxed(objects[i]) }

  /** The separator behind an object of a list. */
  function Comma(objects: seq<bytes>): bytes { if |objects| > 1 then Text(",\n") else Text("\n") }

  lemma ListCons(objects: seq<bytes>, y: bytes)
    requires objects != []
    ensures ListText(objects) + y == Text("    ") + (objects[0] + (Comma(objects) + (ListText(objects[1..]) + y)))
  {
    hide Text;
  }

  lemma Commas(objects: seq<bytes>)
    ensures Separates(Text("    ")) && Separates(Comma(objects))
  {
    Separator("    ");
    Separator(",\n");
    Separator("\n");
  }

  lemma {:induction false} ListEnds(objects: seq<bytes>, y: bytes)
    requires AllBoxed(objects)
    ensures ArrayEnd(ListText(objects) + y, 1) == Shifted(ArrayEnd(y, 1), |ListText(objects)|)
    decreases |objects|
  {
    hide Text, Comma, Boxed, ArrayEnd, Bracketless;
    if objects == [] {
      assert ListText(objects) + y == y;
    } else {
      var rest := ListText(objects[1..]) + y;
      ListCons(objects, y);
      ListCons(objects, []);
      Commas(objects);
      PlainPasses(Text("    "), objects[0] + (Comma(objects) + rest));
      EndPassesBox(objects[0], Comma(objects) + rest);
      PlainPasses(Comma(objects), rest);
      ListEnds(objects[1..], y);
    }
  }

  lemma {:induction false} ListSplits(objects: seq<bytes>, y: bytes)
    requires AllBoxed(objects)
    ensures Objects(ListText(objects) + y, 0, None) == objects + Objects(y, 0, None)
    decreases |objects|
  {
    hide Text, Comma, Boxed, Objects, Bracketless;
    if objects == [] {
      assert ListText(objects) + y == y;
    } else {
      var rest := ListText(objects[1..]) + y;
      ListCons(objects, y);
      Commas(objects);
      ObjectsPass(Text("    "), objects[0] + (Comma(objects) + rest), 0);
      ObjectTaken(objects[0], Comma(objects) + rest);
      ObjectsPass(Comma(objects), rest, 0);
      ListSplits(objects[1..], y);
      assert objects == [objects[0]] + objects[1..];
      Seqs.Regroup([objects[0]], objects[1..], Objects(y, 0, None));
    }
  }

  /** A printed list, from behind its opening bracket, is cut into its objects. */
  lemma ListReads(objects: seq<bytes>, more: bytes)
    requires AllBoxed(objects)
    ensures var r := [10] + (ListText(objects) + (Text("  ") + ([CLOSE_BRACKET] + more)));
            var end := ArrayEnd(r, 1);
            end.Some? && end.value <= |r| && Objects(r[..end.value], 0, None) == objects
  {
    hide Text, AllBoxed, ListText, ArrayEnd, Objects;
    var list, gap, close := ListText(objects), Text("  "), [CLOSE_BRACKET] + more;
    Separator("  ");
    var r := [10] + (list + (gap + close));
    assert Bracketless([10]);
    PlainPasses([10], list + (gap + close));
    ListEnds(objects, gap + close);
    PlainPasses(gap, close);
    ClosesHere(more);
    var n := 1 + |list| + |gap|;
    assert ArrayEnd(r, 1) == Some(n);
    assert r[..n] == [10] + (list + gap);
    ObjectsPass([10], list + gap, 0);
    ListSplits(objects, gap);
    assert gap + [] == gap;
    ObjectsPass(gap, [], 0);
    NoObjects();
    assert objects + [] == objects;
  }

  lemma ClosesHere(more: bytes)
    ensures ArrayEnd([CLOSE_BRACKET] + more, 1) == Some(0)
  {
  }

  lemma NoObjects()
    ensures Objects([], 0, None) == []
  {
  }

  /** Wherever in front of a list's opening bracket the search for its key stops, the list is what is read. */
  lemma ArrayReads(text: bytes, key: bytes, objects: seq<bytes>, more: bytes)
    requires After(text, Quoted(key)).Some? && AllBoxed(objects)
    requires After(After(text, Quoted(key)).value, [OPEN_BRACKET]) == Some([10] + (ListText(objects) + (Text("  ") + ([CLOSE_BRACKET] + more))))
    ensures ObjectsAt(text, key) == objects
  {
    hide After, Text, ListText, ArrayEnd, Objects, AllBoxed, Quoted;
    ListReads(objects, more);
  }
}
