/** Searching printed text for a key: where the search stops, and what is read from there. */
module KeySearch {
  import opened Bytes
  import opened Outcomes
  import opened Recording
  import opened Json
  import opened Manifest
  import Seqs

  // ----- text without a byte -----

  ghost predicate Lacks(s: bytes, b: byte) { forall i :: 0 <= i < |s| ==> s[i] != b }

  lemma {:induction false} SkipByte(x: bytes, y: bytes, b: byte)
    requires Lacks(x, b)
    ensures After(x + y, [b]) == After(y, [b])
    decreases |x|
  {
    if x == [] {
      assert x + y == y;
    } else {
      assert (x + y)[1..] == x[1..] + y;
      assert (x + y)[0] == x[0];
      SkipByte(x[1..], y, b);
    }
  }

  lemma FoundHere(y: bytes, b: byte)
    ensures After([b] + y, [b]) == Some(y)
  {
    assert [b] <= [b] + y && ([b] + y)[1..] == y;
  }

  lemma LacksConcat(a: bytes, c: bytes, b: byte)
    ensures Lacks(a + c, b) <==> Lacks(a, b) && Lacks(c, b)
  {
    assert forall i :: 0 <= i < |a| ==> (a + c)[i] == a[i];
    assert forall i :: 0 <= i < |c| ==> (a + c)[|a| + i] == c[i];
  }

  ghost predicate Quoteless(s: bytes) { Lacks(s, QUOTE) }

  predicate Letter(b: byte) { 97 <= b <= 122 }

  /** Keys are words of letters and underscores; what stands between quoted strings does not start with a letter. */
  ghost predicate Key(k: bytes) { k != [] && Letter(k[0]) && forall i :: 0 <= i < |k| ==> Letter(k[i]) || k[i] == 95 }

  ghost predicate Between(s: bytes) { s != [] && !Letter(s[0]) && Quoteless(s) }

  lemma KeyFacts(k: bytes)
    requires Key(k)
    ensures Quoteless(k) && Lacks(k, BACKSLASH) && Lacks(k, COLON) && Lacks(k, OPEN_BRACKET)
  {
  }

  lemma {:induction false} SkipQuoteless(x: bytes, y: bytes, key: bytes)
    requires Quoteless(x)
    ensures After(x + y, Quoted(key)) == After(y, Quoted(key))
    decreases |x|
  {
    if x == [] {
      assert x + y == y;
    } else {
      assert (x + y)[1..] == x[1..] + y;
      assert !(Quoted(key) <= x + y) by {
        assert (x + y)[0] == x[0] && Quoted(key)[0] == QUOTE;
      }
      SkipQuoteless(x[1..], y, key);
    }
  }

  lemma NotHere(t: bytes, y: bytes, key: bytes)
    requires Quoteless(t) && Quoteless(key) && Quoted(key) <= [QUOTE] + (t + ([QUOTE] + y))
    ensures t == key
  {
    var s := [QUOTE] + (t + ([QUOTE] + y));
    var k := |key|;
    assert s[k + 1] == Quoted(key)[k + 1] == QUOTE;
    assert s[|t| + 1] == QUOTE;
    assert forall i :: 0 <= i < |t| ==> s[i + 1] == t[i];
    assert forall i :: 0 <= i < k ==> s[i + 1] == Quoted(key)[i + 1] == key[i];
    assert |t| == k;
  }

  /** At a quote that opens another string than the key the search goes on behind the quote. */
  lemma PassQuote(t: bytes, y: bytes, key: bytes)
    requires Quoteless(t) && Quoteless(key) && t != key
    ensures After([QUOTE] + (t + ([QUOTE] + y)), Quoted(key)) == After([QUOTE] + y, Quoted(key))
  {
    var s := [QUOTE] + (t + ([QUOTE] + y));
    if Quoted(key) <= s {
      NotHere(t, y, key);
      assert false;
    }
    assert s[1..] == t + ([QUOTE] + y);
    SkipQuoteless(t, [QUOTE] + y, key);
  }

  /** At a quote that is followed by something other than the key's first letter the search goes on. */
  lemma PassClosing(a: bytes, y: bytes, key: bytes)
    requires Between(a) && Key(key)
    ensures After([QUOTE] + (a + y), Quoted(key)) == After(y, Quoted(key))
  {
    var s := [QUOTE] + (a + y);
    assert s[1] == a[0] && Quoted(key)[1] == key[0];
    assert s[1..] == a + y;
    SkipQuoteless(a, y, key);
  }

  lemma HitQuote(key: bytes, y: bytes)
    ensures After([QUOTE] + (key + ([QUOTE] + y)), Quoted(key)) == Some(y)
  {
    var s := [QUOTE] + (key + ([QUOTE] + y));
    assert s == Quoted(key) + y;
    assert s[..|Quoted(key)|] == Quoted(key);
    Seqs.DropPrefix(Quoted(key), y);
  }

  // ----- escaped strings, which may hold quotes -----

  /** Every quote is escaped. */
  ghost predicate Slashed(t: bytes) { forall i :: 0 <= i < |t| && t[i] == QUOTE ==> i > 0 && t[i - 1] == BACKSLASH }

  /** What stands behind the last quote: all that can be mistaken for a key. */
  function Ending(s: bytes): bytes {
    if s == [] || s[|s| - 1] == QUOTE then [] else Ending(s[..|s| - 1]) + [s[|s| - 1]]
  }

  lemma {:induction false} EndingOfPlain(s: bytes)
    requires Quoteless(s)
    ensures Ending(s) == s
    decreases |s|
  {
    if s != [] {
      EndingOfPlain(s[..|s| - 1]);
    }
  }

  lemma {:induction false} EndingAppend(x: bytes, z: bytes)
    requires Quoteless(z)
    ensures Ending(x + z) == Ending(x) + z
    decreases |z|
  {
    if z == [] {
      assert x + z == x;
    } else {
      var n := |z| - 1;
      assert (x + z)[..|x + z| - 1] == x + z[..n];
      EndingAppend(x, z[..n]);
    }
  }

  lemma {:induction false} EndingAfterQuote(a: bytes, t: bytes)
    ensures Ending(a + ([QUOTE] + t)) == Ending(t)
    decreases |t|
  {
    var s := a + ([QUOTE] + t);
    if t != [] {
      var n := |t| - 1;
      assert s[..|s| - 1] == a + ([QUOTE] + t[..n]);
      EndingAfterQuote(a, t[..n]);
    }
  }

  lemma {:induction false} EscapeIsSlashed(s: bytes)
    ensures Slashed(Escape(s))
    decreases |s|
  {
    if s != [] {
      EscapeIsSlashed(s[..|s| - 1]);
    }
  }

  lemma EscapedByte(b: byte)
    ensures b == QUOTE ==> EscapeOne(b) == [BACKSLASH, QUOTE]
    ensures b != QUOTE ==> Quoteless(EscapeOne(b))
  {
  }

  lemma EndingAtQuote(x: bytes)
    ensures Ending(x + [BACKSLASH, QUOTE]) == []
  {
    var s := x + [BACKSLASH, QUOTE];
    assert s[|s| - 1] == QUOTE;
  }

  lemma EscapeSnoc(s: bytes, b: byte)
    ensures Escape(s + [b]) == Escape(s) + EscapeOne(b)
  {
    hide EscapeOne;
    assert (s + [b])[..|s|] == s;
  }

  lemma {:induction false} EndingOfEscape(s: bytes)
    ensures Ending(Escape(s)) == Escape(Ending(s))
    decreases |s|
  {
    hide EscapeOne, Quoteless;
    if s != [] {
      var n, b := |s| - 1, s[|s| - 1];
      EndingOfEscape(s[..n]);
      EscapedByte(b);
      if b == QUOTE {
        EndingAtQuote(Escape(s[..n]));
      } else {
        EndingAppend(Escape(s[..n]), EscapeOne(b));
        EscapeSnoc(Ending(s[..n]), b);
      }
    }
  }

  lemma {:induction false} EscapeWithoutSlash(s: bytes)
    ensures Lacks(Escape(s), BACKSLASH) ==> Escape(s) == s
    decreases |s|
  {
    hide EscapeOne, Lacks;
    if s != [] {
      var n := |s| - 1;
      EscapeWithoutSlash(s[..n]);
      LacksConcat(Escape(s[..n]), EscapeOne(s[n]), BACKSLASH);
      OneWithoutSlash(s[n]);
      assert s == s[..n] + [s[n]];
    }
  }

  lemma OneWithoutSlash(b: byte)
    ensures Lacks(EscapeOne(b), BACKSLASH) ==> EscapeOne(b) == [b]
  {
    if EscapeOne(b) != [b] {
      assert EscapeOne(b)[0] == BACKSLASH;
    }
  }

  lemma {:induction false} KeyEscapes(k: bytes)
    requires forall i :: 0 <= i < |k| ==> Letter(k[i]) || k[i] == 95
    ensures Escape(k) == k
    decreases |k|
  {
    if k != [] {
      KeyEscapes(k[..|k| - 1]);
      assert k == k[..|k| - 1] + [k[|k| - 1]];
    }
  }

  /** Escaping neither hides nor creates an ending that is a key. */
  lemma EndingIsKey(s: bytes, k: bytes)
    requires Key(k)
    ensures Ending(Escape(s)) == k <==> Ending(s) == k
  {
    EndingOfEscape(s);
    EscapeWithoutSlash(Ending(s));
    KeyFacts(k);
    KeyEscapes(k);
  }

  function FirstQuote(t: bytes): (i: nat)
    ensures i <= |t| && (i < |t| ==> t[i] == QUOTE) && forall j :: 0 <= j < i ==> t[j] != QUOTE
  {
    if t == [] || t[0] == QUOTE then 0 else FirstQuote(t[1..]) + 1
  }

  /** The search meets a quoted string: it stops there exactly when the key is all that stands behind the string's last quote. */
  lemma {:induction false} TokenSearch(t: bytes, y: bytes, key: bytes)
    requires Slashed(t) && Key(key)
    ensures After([QUOTE] + (t + ([QUOTE] + y)), Quoted(key)) == if Ending(t) == key then Some(y) else After([QUOTE] + y, Quoted(key))
    decreases |t|
  {
    hide After, Quoted, Key;
    KeyFacts(key);
    var i := FirstQuote(t);
    if i == |t| {
      EndingOfPlain(t);
      if t == key {
        HitQuote(key, y);
      } else {
        PassQuote(t, y, key);
      }
    } else {
      var p, rest := t[..i], t[i + 1..];
      assert t == p + ([QUOTE] + rest);
      assert p[i - 1] == BACKSLASH;
      assert p != key;
      assert t + ([QUOTE] + y) == p + ([QUOTE] + (rest + ([QUOTE] + y)));
      PassQuote(p, rest + ([QUOTE] + y), key);
      EndingAfterQuote(p, rest);
      forall j | 0 <= j < |rest| && rest[j] == QUOTE
        ensures j > 0 && rest[j - 1] == BACKSLASH
      {
        assert t[i + 1 + j] == rest[j] && t[i + j] == BACKSLASH;
      }
      TokenSearch(rest, y, key);
    }
  }

  // ----- items -----

  /** The string is escaped, and nothing behind it opens another. */
  ghost predicate Fair(it: Item) { Slashed(it.token) && Between(it.after) }

  ghost predicate AllFair(items: seq<Item>) { forall i :: 0 <= i < |items| ==> Fair(items[i]) }

  lemma ItemSearch(it: Item, y: bytes, key: bytes)
    requires Fair(it) && Key(key)
    ensures After((Quoted(it.token) + it.after) + y, Quoted(key)) ==
            if Ending(it.token) == key then Some(it.after + y) else After(y, Quoted(key))
  {
    hide After, Key, Slashed, Between, Ending;
    assert (Quoted(it.token) + it.after) + y == [QUOTE] + (it.token + ([QUOTE] + (it.after + y)));
    TokenSearch(it.token, it.after + y, key);
    PassClosing(it.after, y, key);
  }

  /** No item of these stops the search for the key. */
  ghost predicate Free(items: seq<Item>, key: bytes) { forall i :: 0 <= i < |items| ==> Ending(items[i].token) != key }

  lemma {:induction false} PassItems(items: seq<Item>, y: bytes, key: bytes)
    requires AllFair(items) && Free(items, key) && Key(key)
    ensures After(ItemsText(items) + y, Quoted(key)) == After(y, Quoted(key))
    decreases |items|
  {
    hide After, Quoted, Fair, Key, Ending;
    if items == [] {
      assert ItemsText(items) + y == y;
    } else {
      Seqs.Regroup(Quoted(items[0].token) + items[0].after, ItemsText(items[1..]), y);
      ItemSearch(items[0], ItemsText(items[1..]) + y, key);
      PassItems(items[1..], y, key);
    }
  }

  /** The search for the key stops first at item j. */
  ghost predicate FirstAt(items: seq<Item>, j: nat, key: bytes) {
    j < |items| && Ending(items[j].token) == key && forall i :: 0 <= i < j ==> Ending(items[i].token) != key
  }

  lemma FindItem(head: bytes, items: seq<Item>, tail: bytes, j: nat, key: bytes)
    requires Quoteless(head) && AllFair(items) && FirstAt(items, j, key) && Key(key)
    ensures After(head + (ItemsText(items) + tail), Quoted(key)) == Some(items[j].after + (ItemsText(items[j + 1..]) + tail))
  {
    hide After, Quoted, Fair, Key, Ending, Quoteless;
    var before, it, later := items[..j], items[j], items[j + 1..];
    assert items == before + ([it] + later);
    SkipQuoteless(head, ItemsText(items) + tail, key);
    ItemsConcat(before, [it] + later);
    ItemsConcat([it], later);
    OneItem(it.token, it.after);
    var one := Quoted(it.token) + it.after;
    Seqs.Regroup(ItemsText(before), one + ItemsText(later), tail);
    Seqs.Regroup(one, ItemsText(later), tail);
    PassItems(before, one + (ItemsText(later) + tail), key);
    ItemSearch(it, ItemsText(later) + tail, key);
  }

  // ----- reading one field -----

  lemma IsText(x: bytes)
    ensures IS == [COLON, 32] && After(IS + x, [COLON]) == Some([32] + x)
  {
    assert IS == [COLON, 32];
    assert [COLON] <= IS + x && (IS + x)[1..] == [32] + x;
  }

  /** The value read is that of item v: the item itself, or the next one when the search stopped at a value in front of it. */
  ghost predicate Leads(items: seq<Item>, j: nat, v: nat) {
    v < |items| && (v == j || (v == j + 1 && Lacks(items[j].after, COLON) && Lacks(items[v].token, COLON)))
  }

  lemma ValueAt(head: bytes, items: seq<Item>, tail: bytes, j: nat, v: nat, key: bytes, x: bytes)
    requires Quoteless(head) && AllFair(items) && FirstAt(items, j, key) && Key(key) && Leads(items, j, v)
    requires items[v].after == IS + x
    ensures var found := After(head + (ItemsText(items) + tail), Quoted(key));
            found.Some? && After(found.value, [COLON]) == Some([32] + (x + (ItemsText(items[v + 1..]) + tail)))
  {
    hide After, AllFair, FirstAt, Key, Quoteless, ItemsText, Lacks;
    FindItem(head, items, tail, j, key);
    StopsWithin(items, j, key);
    var rest := ItemsText(items[v + 1..]) + tail;
    Seqs.Regroup(IS, x, rest);
    IsText(x + rest);
    if v != j {
      var it := items[v];
      assert items[j + 1..] == [it] + items[v + 1..];
      ItemsConcat([it], items[v + 1..]);
      OneItem(it.token, it.after);
      var front := items[j].after + Quoted(it.token);
      QuotedLacks(it.token);
      assert Lacks(front, COLON) by { LacksConcat(items[j].after, Quoted(it.token), COLON); }
      assert items[j].after + (ItemsText(items[j + 1..]) + tail) == front + (it.after + rest);
      SkipByte(front, it.after + rest, COLON);
    }
  }

  lemma StopsWithin(items: seq<Item>, j: nat, key: bytes)
    requires FirstAt(items, j, key)
    ensures j < |items|
  {
  }

  lemma QuotedLacks(t: bytes)
    requires Lacks(t, COLON)
    ensures Lacks(Quoted(t), COLON)
  {
  }

  lemma NumberIn(head: bytes, items: seq<Item>, tail: bytes, j: nat, v: nat, key: bytes, n: u64, sep: bytes)
    requires Quoteless(head) && AllFair(items) && FirstAt(items, j, key) && Key(key) && Leads(items, j, v)
    requires items[v].after == IS + (Digits(n) + sep) && sep != [] && !Digit(sep[0])
    ensures NumberAt(head + (ItemsText(items) + tail), key) == n
  {
    hide After, Quoted, AllFair, FirstAt, Key, Lacks, ItemsText, Digits, StoUll, SkipBlanks;
    ValueAt(head, items, tail, j, v, key, Digits(n) + sep);
    var rest := ItemsText(items[v + 1..]) + tail;
    Seqs.Regroup(Digits(n), sep, rest);
    DecimalReadsBack(n, sep + rest);
  }

  /** Where a number is expected and a string stands, 0 is read. */
  lemma NoNumberIn(head: bytes, items: seq<Item>, tail: bytes, j: nat, v: nat, key: bytes)
    requires Quoteless(head) && AllFair(items) && FirstAt(items, j, key) && Key(key) && Leads(items, j, v)
    requires items[v].after == IS && v + 1 < |items|
    ensures NumberAt(head + (ItemsText(items) + tail), key) == 0
  {
    hide After, Quoted, AllFair, FirstAt, Key, Leads, Quoteless, ItemsText, StoUll, SkipBlanks;
    assert IS + [] == IS;
    ValueAt(head, items, tail, j, v, key, []);
    var next := items[v + 1];
    assert items[v + 1..] == [next] + items[v + 2..];
    ItemsConcat([next], items[v + 2..]);
    OneItem(next.token, next.after);
    var rest := ItemsText(items[v + 1..]) + tail;
    assert [] + rest == rest;
    StringIsNoNumber(next.token, next.after + ItemsText(items[v + 2..]) + tail);
    assert rest == Quoted(next.token) + (next.after + ItemsText(items[v + 2..]) + tail);
  }

  lemma StringIsNoNumber(t: bytes, y: bytes)
    ensures StoUll(SkipBlanks([32] + (Quoted(t) + y))) == 0
  {
    var s := Quoted(t) + y;
    assert s[0] == QUOTE;
    assert ([32] + s)[1..] == s;
    assert SkipBlanks(s) == s == SkipSpace(s);
  }

  lemma StringIn(head: bytes, items: seq<Item>, tail: bytes, j: nat, v: nat, key: bytes, x: bytes, value: bytes)
    requires Quoteless(head) && AllFair(items) && FirstAt(items, j, key) && Key(key) && Leads(items, j, v)
    requires items[v].after == IS + x && Quoteless(x) && v + 1 < |items| && items[v + 1].token == Escape(value)
    ensures StringAt(head + (ItemsText(items) + tail), key) == value
  {
    hide After, Quoted, AllFair, FirstAt, Key, Leads, ItemsText, StringValue, Escape, Lacks;
    ValueAt(head, items, tail, j, v, key, x);
    var next := items[v + 1];
    var e := next.token;
    assert items[v + 1..] == [next] + items[v + 2..];
    ItemsConcat([next], items[v + 2..]);
    OneItem(e, next.after);
    var y := next.after + (ItemsText(items[v + 2..]) + tail);
    QuotedText(e, y);
    assert [32] + (x + (ItemsText(items[v + 1..]) + tail)) == ([32] + x) + ([QUOTE] + (e + ([QUOTE] + y)));
    assert Lacks([32] + x, QUOTE) by { LacksBlank(x); }
    SkipByte([32] + x, [QUOTE] + (e + ([QUOTE] + y)), QUOTE);
    FoundHere(e + ([QUOTE] + y), QUOTE);
    EscapedReadsBack(value, y);
  }

  lemma QuotedText(e: bytes, y: bytes)
    ensures Quoted(e) + y == [QUOTE] + (e + ([QUOTE] + y))
  {
  }

  lemma LacksBlank(x: bytes)
    requires Lacks(x, QUOTE)
    ensures Lacks([32] + x, QUOTE)
  {
  }
}
