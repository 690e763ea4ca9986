/** The string searching with which the manifest is read, and the escaping with which it is written. */
module Json {
  import opened Bytes
  import opened Outcomes
  import opened Recording
  import Seqs

  const QUOTE: byte := 34
  const BACKSLASH: byte := 92
  const COLON: byte := 58
  const OPEN_BRACKET: byte := 91
  const CLOSE_BRACKET: byte := 93
  const OPEN_BRACE: byte := 123
  const CLOSE_BRACE: byte := 125

  // ----- escaping -----

  function EscapeOne(b: byte): bytes {
    if b == QUOTE then [BACKSLASH, QUOTE]
    else if b == BACKSLASH then [BACKSLASH, BACKSLASH]
    else if b == 10 then [BACKSLASH, 110]
    else if b == 13 then [BACKSLASH, 114]
    else if b == 9 then [BACKSLASH, 116]
    else [b]
  }

  function Escape(s: bytes): bytes {
    if s == [] then [] else Escape(s[..|s| - 1]) + EscapeOne(s[|s| - 1])
  }

  method JsonEscape(s: bytes) returns (r: bytes)
    ensures r == Escape(s)
  {
    r := [];
    for i := 0 to |s|
      invariant r == Escape(s[..i])
    {
      assert s[..i + 1][..i] == s[..i];
      r := r + EscapeOne(s[i]);
    }
    assert s[..|s|] == s;
  }

  /** What a backslash and this byte stand for; unknown escapes stand for the byte. */
  function Unescaped(b: byte): byte {
    if b == 110 then 10 else if b == 114 then 13 else if b == 116 then 9 else b
  }

  /** The string value that starts here, up to a quote that is not escaped, or to the end. */
  function StringValue(s: bytes): bytes {
    if s == [] || s[0] == QUOTE then []
    else if s[0] == BACKSLASH && |s| > 1 then [Unescaped(s[1])] + StringValue(s[2..])
    else [s[0]] + StringValue(s[1..])
  }

  lemma OneReadsBack(b: byte, rest: bytes)
    ensures StringValue(EscapeOne(b) + rest) == [b] + StringValue(rest)
  {
    var s := EscapeOne(b) + rest;
    if |EscapeOne(b)| == 2 {
      assert s[2..] == rest;
    } else {
      assert s[1..] == rest;
    }
  }

  lemma {:induction false} EscapedReadsOn(s: bytes, rest: bytes)
    ensures StringValue(Escape(s) + rest) == s + StringValue(rest)
    decreases |s|
  {
    hide EscapeOne, StringValue;
    if s == [] {
      assert [] + rest == rest;
    } else {
      var n := |s| - 1;
      Seqs.Regroup(Escape(s[..n]), EscapeOne(s[n]), rest);
      EscapedReadsOn(s[..n], EscapeOne(s[n]) + rest);
      OneReadsBack(s[n], rest);
      assert s == s[..n] + [s[n]];
      Seqs.Regroup(s[..n], [s[n]], StringValue(rest));
    }
  }

  /** Any string at all, escaped and closed by a quote, is read back as it was. */
  lemma EscapedReadsBack(s: bytes, rest: bytes)
    ensures StringValue(Escape(s) + ([QUOTE] + rest)) == s
  {
    EscapedReadsOn(s, [QUOTE] + rest);
    assert s + [] == s;
  }

  // ----- hexadecimal -----

  function HexDigit(n: nat): byte
    requires n < 16
  {
    if n < 10 then 48 + n else 97 + n - 10
  }

  function Hex(data: bytes): (r: bytes)
    ensures |r| == 2 * |data|
  {
    if data == [] then []
    else Hex(data[..|data| - 1]) + [HexDigit(data[|data| - 1] / 16), HexDigit(data[|data| - 1] % 16)]
  }

  /** The value of a hexadecimal digit in either case; 0 for anything else. */
  function Nibble(c: byte): (n: nat)
    ensures n < 16
  {
    if 48 <= c <= 57 then c - 48
    else if 97 <= c <= 102 then c - 97 + 10
    else if 65 <= c <= 70 then c - 65 + 10
    else 0
  }

  function Octet(high: byte, low: byte): byte { Nibble(high) * 16 + Nibble(low) }

  /** A last odd digit is dropped. */
  function Unhex(hex: bytes): bytes {
    if |hex| < 2 then [] else [Octet(hex[0], hex[1])] + Unhex(hex[2..])
  }

  method ToHex(data: bytes) returns (r: bytes)
    ensures r == Hex(data)
  {
    r := [];
    for i := 0 to |data|
      invariant r == Hex(data[..i])
    {
      assert data[..i + 1][..i] == data[..i];
      r := r + [HexDigit(data[i] / 16)];
      r := r + [HexDigit(data[i] % 16)];
    }
    assert data[..|data|] == data;
  }

  method FromHex(hex: bytes) returns (r: bytes)
    ensures r == Unhex(hex)
  {
    hide Octet;
    r := [];
    var i := 0;
    assert hex[0..] == hex;
    while i + 1 < |hex|
      invariant i <= |hex| && r + Unhex(hex[i..]) == Unhex(hex)
    {
      assert hex[i..][2..] == hex[i + 2..];
      Seqs.Regroup(r, [Octet(hex[i], hex[i + 1])], Unhex(hex[i + 2..]));
      r := r + [Octet(hex[i], hex[i + 1])];
      i := i + 2;
    }
    assert r + [] == r;
  }

  /** The character for a digit below 16. */
  ghost function DigitChar(n: nat): char
    requires n < 16
  {
    "0123456789abcdef"[n]
  }

  /** Digit 2k is the upper half of byte k, digit 2k + 1 the lower, in lower case. */
  lemma {:induction false} HexDigits(data: bytes, k: nat)
    requires k < |data|
    ensures Hex(data)[2 * k] == DigitChar(data[k] / 16) as int && Hex(data)[2 * k + 1] == DigitChar(data[k] % 16) as int
    decreases |data|
  {
    DigitIsChar(data[k] / 16);
    DigitIsChar(data[k] % 16);
    hide DigitChar, HexDigit;
    if k < |data| - 1 {
      HexDigits(data[..|data| - 1], k);
    }
  }

  lemma DigitIsChar(n: nat)
    requires n < 16
    ensures HexDigit(n) == DigitChar(n) as int
  {
  }

  lemma NibbleOfDigit(n: nat)
    requires n < 16
    ensures Nibble(HexDigit(n)) == n
  {
  }

  lemma {:induction false} HexReadsOn(data: bytes, rest: bytes)
    ensures Unhex(Hex(data) + rest) == data + Unhex(rest)
    decreases |data|
  {
    if data == [] {
      assert [] + rest == rest;
    } else {
      var n := |data| - 1;
      var b := data[n];
      var two := [HexDigit(b / 16), HexDigit(b % 16)];
      Seqs.Regroup(Hex(data[..n]), two, rest);
      HexReadsOn(data[..n], two + rest);
      NibbleOfDigit(b / 16);
      NibbleOfDigit(b % 16);
      assert (two + rest)[2..] == rest;
      assert data == data[..n] + [b];
      Seqs.Regroup(data[..n], [b], Unhex(rest));
    }
  }

  lemma HexReadsBack(data: bytes)
    ensures Unhex(Hex(data)) == data
  {
    HexReadsOn(data, []);
    assert Hex(data) + [] == Hex(data) && data + [] == data;
  }

  // ----- searching -----

  /** What follows the first occurrence of a pattern. */
  function After(text: bytes, pattern: bytes): Option<bytes> {
    if pattern <= text then Some(text[|pattern|..])
    else if text == [] then None
    else After(text[1..], pattern)
  }

  /** The position behind the first occurrence of a pattern at or after a position. */
  method FindFrom(text: bytes, pattern: bytes, from: nat) returns (next: Option<nat>)
    requires from <= |text|
    ensures next.None? <==> After(text[from..], pattern).None?
    ensures next.Some? ==> from <= next.value <= |text| && After(text[from..], pattern) == Some(text[next.value..])
  {
    var i := from;
    while i + |pattern| <= |text|
      invariant from <= i <= |text|
      invariant After(text[from..], pattern) == After(text[i..], pattern)
    {
      if text[i..i + |pattern|] == pattern {
        assert pattern <= text[i..];
        assert text[i..][|pattern|..] == text[i + |pattern|..];
        return Some(i + |pattern|);
      }
      PrefixIsSlice(text, pattern, i);
      if i == |text| {
        break;
      }
      assert text[i..][1..] == text[i + 1..];
      i := i + 1;
    }
    TooShort(text[i..], pattern);
    next := None;
  }

  lemma PrefixIsSlice(text: bytes, pattern: bytes, i: nat)
    requires i + |pattern| <= |text| && text[i..i + |pattern|] != pattern
    ensures !(pattern <= text[i..]) && i < |text|
  {
  }

  lemma {:induction false} TooShort(text: bytes, pattern: bytes)
    requires |text| < |pattern|
    ensures After(text, pattern).None?
  {
    if text != [] {
      TooShort(text[1..], pattern);
    }
  }

  function Quoted(key: bytes): bytes { [QUOTE] + key + [QUOTE] }

  function StringAt(text: bytes, key: bytes): bytes {
    match After(text, Quoted(key))
    case None => []
    case Some(r1) =>
      match After(r1, [COLON]) {
        case None => []
        case Some(r2) =>
          match After(r2, [QUOTE]) {
            case None => []
            case Some(r3) => StringValue(r3)
          }
      }
  }

  /** The unescaped string value of the first occurrence of a key. */
  method ExtractJsonString(json: bytes, key: bytes) returns (result: bytes)
    ensures result == StringAt(json, key)
  {
    hide After;
    assert json[0..] == json;
    var at := FindFrom(json, Quoted(key), 0);
    if at.None? {
      return [];
    }
    at := FindFrom(json, [COLON], at.value);
    if at.None? {
      return [];
    }
    at := FindFrom(json, [QUOTE], at.value);
    if at.None? {
      return [];
    }
    result := ReadString(json, at.value);
  }

  method ReadString(json: bytes, start: nat) returns (result: bytes)
    requires start <= |json|
    ensures result == StringValue(json[start..])
  {
    var pos := start;
    result := [];
    while pos < |json| && json[pos] != QUOTE
      invariant start <= pos <= |json| && result + StringValue(json[pos..]) == StringValue(json[start..])
    {
      if json[pos] == BACKSLASH && pos + 1 < |json| {
        assert json[pos..][2..] == json[pos + 2..];
        Seqs.Regroup(result, [Unescaped(json[pos + 1])], StringValue(json[pos + 2..]));
        pos := pos + 1;
        result := result + [Unescaped(json[pos])];
      } else {
        assert json[pos..][1..] == json[pos + 1..];
        Seqs.Regroup(result, [json[pos]], StringValue(json[pos + 1..]));
        result := result + [json[pos]];
      }
      pos := pos + 1;
    }
    assert result + [] == result;
  }

  // ----- numbers -----

  predicate Digit(b: byte) { 48 <= b <= 57 }

  /** The value of the digits that start here, behind a value already read. */
  function Number(s: bytes, value: nat): nat {
    if s == [] || !Digit(s[0]) then value else Number(s[1..], value * 10 + s[0] - 48)
  }

  /** What the conversions of the C++ library skip in front of a number. */
  predicate Space(b: byte) { b == 32 || 9 <= b <= 13 }

  function SkipSpace(s: bytes): bytes {
    if s != [] && Space(s[0]) then SkipSpace(s[1..]) else s
  }

  /** The conversion of the C++ library: white space, an optional sign, digits; 0 when there are none or too many. */
  function StoUll(s: bytes): u64 { Signed(SkipSpace(s)) }

  function Signed(s: bytes): u64 {
    if s == [] then 0
    else if Digit(s[0]) then Fitting(Number(s, 0))
    else if s[0] == 43 && |s| > 1 && Digit(s[1]) then Fitting(Number(s[1..], 0))
    else if s[0] == 45 && |s| > 1 && Digit(s[1]) then
      var n := Fitting(Number(s[1..], 0));
      if n == 0 then 0 else 0x1_0000_0000_0000_0000 - n
    else 0
  }

  function Fitting(n: nat): u64 { if n <= U64_MAX then n else 0 }

  predicate Blank(b: byte) { b == 32 || b == 9 || b == 10 || b == 13 }

  function SkipBlanks(s: bytes): bytes {
    if s != [] && Blank(s[0]) then SkipBlanks(s[1..]) else s
  }

  function NumberAt(text: bytes, key: bytes): u64 {
    match After(text, Quoted(key))
    case None => 0
    case Some(r1) =>
      match After(r1, [COLON]) {
        case None => 0
        case Some(r2) => StoUll(SkipBlanks(r2))
      }
  }

  /** The number behind the first occurrence of a key; 0 when there is none. */
  method ExtractJsonUint64(json: bytes, key: bytes) returns (n: u64)
    ensures n == NumberAt(json, key)
  {
    hide After, StoUll;
    assert json[0..] == json;
    var at := FindFrom(json, Quoted(key), 0);
    if at.None? {
      return 0;
    }
    at := FindFrom(json, [COLON], at.value);
    if at.None? {
      return 0;
    }
    var pos := at.value;
    while pos < |json| && Blank(json[pos])
      invariant at.value <= pos <= |json| && SkipBlanks(json[pos..]) == SkipBlanks(json[at.value..])
    {
      assert json[pos..][1..] == json[pos + 1..];
      pos := pos + 1;
    }
    if pos >= |json| {
      NoNumber();
      return 0;
    }
    n := StoUll(json[pos..]);
  }

  lemma NoNumber()
    ensures StoUll([]) == 0
  {
  }

  lemma {:induction false} NumberOfDigits(n: nat, rest: bytes)
    ensures Number(Digits(n) + rest, 0) == Number(rest, n)
    decreases n
  {
    if n < 10 {
      assert (Digits(n) + rest)[1..] == rest;
    } else {
      var d := [48 + n % 10];
      Seqs.Regroup(Digits(n / 10), d, rest);
      NumberOfDigits(n / 10, d + rest);
      assert (d + rest)[1..] == rest;
    }
  }

  lemma {:induction false} DigitsAreDigits(n: nat)
    ensures forall i :: 0 <= i < |Digits(n)| ==> Digit(Digits(n)[i])
    decreases n
  {
    if n >= 10 {
      DigitsAreDigits(n / 10);
    }
  }

  /** Printed in decimal and followed by something else, a 64-bit number is read back. */
  lemma DecimalReadsBack(n: u64, rest: bytes)
    requires rest == [] || !Digit(rest[0])
    ensures StoUll(SkipBlanks([32] + (Digits(n) + rest))) == n
  {
    hide Digits, Number;
    DigitsAreDigits(n);
    NumberOfDigits(n, rest);
    assert Digit(Digits(n)[0]);
    var s := Digits(n) + rest;
    assert s[0] == Digits(n)[0];
    assert ([32] + s)[1..] == s;
    assert SkipBlanks(s) == s == SkipSpace(s);
    Ended(n, rest);
  }

  lemma Ended(n: nat, rest: bytes)
    requires rest == [] || !Digit(rest[0])
    ensures Number(rest, n) == n
  {
  }

  // ----- arrays of objects -----

  /** Where the array closes; brackets and braces count alike, and only a bracket closes it. */
  function ArrayEnd(s: bytes, depth: int): Option<nat> {
    if s == [] then None
    else
      var b := s[0];
      var d := if b == OPEN_BRACKET || b == OPEN_BRACE then depth + 1
               else if b == CLOSE_BRACKET || b == CLOSE_BRACE then depth - 1 else depth;
      if b == CLOSE_BRACKET && d == 0 then Some(0)
      else
        match ArrayEnd(s[1..], d)
        case None => None
        case Some(k) => Some(k + 1)
  }

  /** The outermost objects of an array's text; open is the text of the object being read. */
  function Objects(s: bytes, depth: int, open: Option<bytes>): seq<bytes> {
    if s == [] then []
    else
      var b := s[0];
      var grown := match open case Some(o) => Some(o + [b]) case None => None;
      if b == OPEN_BRACE then Objects(s[1..], depth + 1, if depth == 0 then Some([b]) else grown)
      else if b == CLOSE_BRACE then
        if depth - 1 == 0 && grown.Some? then [grown.value] + Objects(s[1..], depth - 1, None)
        else Objects(s[1..], depth - 1, grown)
      else Objects(s[1..], depth, grown)
  }

  function ObjectsAt(text: bytes, key: bytes): seq<bytes> {
    match After(text, Quoted(key))
    case None => []
    case Some(r1) =>
      match After(r1, [OPEN_BRACKET]) {
        case None => []
        case Some(r2) =>
          var end := ArrayEnd(r2, 1);
          Objects(if end.Some? && end.value <= |r2| then r2[..end.value] else r2, 0, None)
      }
  }

  lemma {:induction false} ArrayEndBound(s: bytes, depth: int)
    ensures ArrayEnd(s, depth).Some? ==> ArrayEnd(s, depth).value < |s|
  {
    if s != [] {
      var b := s[0];
      ArrayEndBound(s[1..], if b == OPEN_BRACKET || b == OPEN_BRACE then depth + 1
                            else if b == CLOSE_BRACKET || b == CLOSE_BRACE then depth - 1 else depth);
    }
  }

  /** Walks to the bracket that closes the array opened just before start. */
  method FindArrayEnd(json: bytes, start: nat) returns (end: Option<nat>)
    requires start <= |json|
    ensures end == match ArrayEnd(json[start..], 1) case None => None case Some(k) => Some(start + k)
  {
    var depth := 1;
    var i := start;
    while i < |json|
      invariant start <= i <= |json|
      invariant match ArrayEnd(json[i..], depth)
                case None => ArrayEnd(json[start..], 1) == None
                case Some(k) => ArrayEnd(json[start..], 1) == Some(i - start + k)
    {
      assert json[i..][1..] == json[i + 1..];
      if json[i] == OPEN_BRACKET || json[i] == OPEN_BRACE {
        depth := depth + 1;
      } else if json[i] == CLOSE_BRACKET || json[i] == CLOSE_BRACE {
        depth := depth - 1;
        if json[i] == CLOSE_BRACKET && depth == 0 {
          return Some(i);
        }
      }
      i := i + 1;
    }
    end := None;
  }

  /** Cuts an array's text into its outermost objects. */
  method SplitObjects(arr: bytes) returns (result: seq<bytes>)
    ensures result == Objects(arr, 0, None)
  {
    result := [];
    var depth: int := 0;
    var objStart: Option<nat> := None;
    assert arr[0..] == arr;
    for i := 0 to |arr|
      invariant objStart.Some? ==> objStart.value < i
      invariant result + Objects(arr[i..], depth, if objStart.Some? then Some(arr[objStart.value..i]) else None) == Objects(arr, 0, None)
    {
      assert arr[i..][1..] == arr[i + 1..];
      if objStart.Some? {
        assert arr[objStart.value..i + 1] == arr[objStart.value..i] + [arr[i]];
      }
      if arr[i] == OPEN_BRACE {
        if depth == 0 {
          objStart := Some(i);
          assert arr[i..i + 1] == [arr[i]];
        }
        depth := depth + 1;
      } else if arr[i] == CLOSE_BRACE {
        depth := depth - 1;
        if depth == 0 && objStart.Some? {
          Seqs.Regroup(result, [arr[objStart.value..i + 1]], Objects(arr[i + 1..], depth, None));
          result := result + [arr[objStart.value..i + 1]];
          objStart := None;
        }
      }
    }
    assert arr[|arr|..] == [];
    assert result + [] == result;
  }

  /** The objects of the array behind the first occurrence of a key; an array that does not close runs to the end. */
  method ExtractJsonObjects(json: bytes, key: bytes) returns (result: seq<bytes>)
    ensures result == ObjectsAt(json, key)
  {
    hide After, Objects, ArrayEnd;
    assert json[0..] == json;
    var at := FindFrom(json, Quoted(key), 0);
    if at.None? {
      return [];
    }
    at := FindFrom(json, [OPEN_BRACKET], at.value);
    if at.None? {
      return [];
    }
    var end := FindArrayEnd(json, at.value);
    ArrayEndBound(json[at.value..], 1);
    var arr := if end.Some? then json[at.value..end.value] else json[at.value..];
    if end.Some? {
      assert json[at.value..][..end.value - at.value] == arr;
    }
    result := SplitObjects(arr);
  }
}
