/**
 The JSON text the replay store writes and reads (python/services/replay/store.py): json.dumps with compact
 separators and every character outside printable ASCII escaped, and json.loads.  A Python string is a sequence
 of code points, surrogates included; strings follow section 7 of RFC 8259.
*/
module PyJson {
  import opened Messages

  type Code = c: nat | c < 0x110000
  type Str = seq<Code>

  /**
   A decoded value.  An object is a Python dict in insertion order.  A float is a text that denotes it: the one
   that was read, or, for a value about to be written, the one Python's repr gives.
  */
  datatype Json =
    | Null
    | Bool(b: bool)
    | Int(i: int)
    | Float(text: Str)
    | String(s: Str)
    | Array(items: seq<Json>)
    | Object(members: seq<Member>)

  datatype Member = Member(key: Str, value: Json)

  const QUOTE: Code := 0x22
  const BACKSLASH: Code := 0x5c
  const COMMA: Code := 0x2c
  const COLON: Code := 0x3a
  const MINUS: Code := 0x2d
  const DOT: Code := 0x2e
  const OPEN_BRACE: Code := 0x7b
  const CLOSE_BRACE: Code := 0x7d
  const OPEN_BRACKET: Code := 0x5b
  const CLOSE_BRACKET: Code := 0x5d
  const LETTER_U: Code := 0x75
  const NULL: Str := [0x6e, 0x75, 0x6c, 0x6c]
  const TRUE: Str := [0x74, 0x72, 0x75, 0x65]
  const FALSE: Str := [0x66, 0x61, 0x6c, 0x73, 0x65]
  const NAN: Str := [0x4e, 0x61, 0x4e]
  const INFINITY: Str := [0x49, 0x6e, 0x66, 0x69, 0x6e, 0x69, 0x74, 0x79]

  // ---------------------------------------------------------------- surrogates

  predicate High(c: Code) { 0xd800 <= c < 0xdc00 }

  predicate Low(c: Code) { 0xdc00 <= c < 0xe000 }

  function Join(high: Code, low: Code): Code
    requires High(high) && Low(low)
  {
    0x10000 + (high - 0xd800) * 0x400 + (low - 0xdc00)
  }

  /** The two halves of a code point outside the basic plane. */
  function HighOf(c: Code): (high: Code)
    requires c >= 0x10000
    ensures High(high)
  {
    0xd800 + (c - 0x10000) / 0x400
  }

  function LowOf(c: Code): (low: Code)
    requires c >= 0x10000
    ensures Low(low)
  {
    0xdc00 + (c - 0x10000) % 0x400
  }

  lemma HalvesJoin(c: Code)
    requires c >= 0x10000
    ensures Join(HighOf(c), LowOf(c)) == c
  {
    var v := c - 0x10000;
    assert v / 0x400 * 0x400 + v % 0x400 == v;
  }

  /** Left to right, every high surrogate directly followed by a low one becomes the code point the two encode. */
  function Joined(s: Str): (r: Str)
    ensures |r| <= |s|
  {
    if s == [] then []
    else if |s| > 1 && High(s[0]) && Low(s[1]) then [Join(s[0], s[1])] + Joined(s[2..])
    else [s[0]] + Joined(s[1..])
  }

  /** No high surrogate is directly followed by a low one. */
  predicate Unpaired(s: Str) {
    forall i :: 0 <= i < |s| - 1 ==> !(High(s[i]) && Low(s[i + 1]))
  }

  lemma {:induction false} JoinedUnpaired(s: Str)
    ensures Unpaired(s) ==> Joined(s) == s
    ensures !Unpaired(s) ==> |Joined(s)| < |s|
  {
    if |s| > 1 && High(s[0]) && Low(s[1]) {
    } else if s != [] {
      JoinedUnpaired(s[1..]);
      if Unpaired(s[1..]) {
        assert forall i :: 0 < i < |s| - 1 ==> s[i] == s[1..][i - 1] && s[i + 1] == s[1..][i];
      } else {
        var i :| 0 <= i < |s[1..]| - 1 && High(s[1..][i]) && Low(s[1..][i + 1]);
        assert High(s[i + 1]) && Low(s[i + 2]);
      }
    }
  }

  // ---------------------------------------------------------------- dumps: each text is followed by `rest`

  function Hex(d: nat): Code
    requires d < 16
  {
    if d < 10 then 0x30 + d else 0x57 + d
  }

  /** \uXXXX */
  function HexTo(u: nat, rest: Str): Str
    requires u < 0x10000
  {
    [BACKSLASH, LETTER_U, Hex(u / 4096), Hex(u / 256 % 16), Hex(u / 16 % 16), Hex(u % 16)] + rest
  }

  /** The letter of a two-character escape, if the character has one. */
  function ShortEscape(c: Code): Option<Code> {
    if c == QUOTE || c == BACKSLASH then Some(c)
    else if c == 0x0a then Some(0x6e)
    else if c == 0x0d then Some(0x72)
    else if c == 0x09 then Some(0x74)
    else if c == 0x0c then Some(0x66)
    else if c == 0x08 then Some(0x62)
    else None
  }

  function UnitTo(c: Code, rest: Str): Str {
    if ShortEscape(c).Some? then [BACKSLASH, ShortEscape(c).value] + rest
    else if 0x20 <= c <= 0x7e then [c] + rest
    else if c < 0x10000 then HexTo(c, rest)
    else HexTo(HighOf(c), HexTo(LowOf(c), rest))
  }

  function EscapedTo(s: Str, rest: Str): Str {
    if s == [] then rest else UnitTo(s[0], EscapedTo(s[1..], rest))
  }

  function StringTo(s: Str, rest: Str): Str { [QUOTE] + EscapedTo(s, [QUOTE] + rest) }

  function DigitsTo(n: nat, rest: Str): Str {
    if n < 10 then [0x30 + n] + rest else DigitsTo(n / 10, [0x30 + n % 10] + rest)
  }

  function IntTo(i: int, rest: Str): Str {
    if i < 0 then [MINUS] + DigitsTo(-i, rest) else DigitsTo(i, rest)
  }

  function PrintTo(v: Json, rest: Str): Str {
    match v
    case Null => NULL + rest
    case Bool(b) => (if b then TRUE else FALSE) + rest
    case Int(i) => IntTo(i, rest)
    case Float(text) => text + rest
    case String(s) => StringTo(s, rest)
    case Array(items) => [OPEN_BRACKET] + ItemsTo(items, [CLOSE_BRACKET] + rest)
    case Object(members) => [OPEN_BRACE] + MembersTo(members, [CLOSE_BRACE] + rest)
  }

  function ItemsTo(items: seq<Json>, rest: Str): Str {
    if items == [] then rest
    else if |items| == 1 then PrintTo(items[0], rest)
    else PrintTo(items[0], [COMMA] + ItemsTo(items[1..], rest))
  }

  function MemberTo(m: Member, rest: Str): Str {
    StringTo(m.key, [COLON] + PrintTo(m.value, rest))
  }

  function MembersTo(members: seq<Member>, rest: Str): Str {
    if members == [] then rest
    else if |members| == 1 then MemberTo(members[0], rest)
    else MemberTo(members[0], [COMMA] + MembersTo(members[1..], rest))
  }

  function Dumps(v: Json): Str { PrintTo(v, []) }

  // ---------------------------------------------------------------- loads

  datatype Parsed<+T> = Parsed(value: T, rest: Str)

  function HexValue(c: Code): (r: Option<nat>)
    ensures r.Some? ==> r.value < 16
  {
    if 0x30 <= c <= 0x39 then Some(c - 0x30)
    else if 0x61 <= c <= 0x66 then Some(c - 0x57)
    else if 0x41 <= c <= 0x46 then Some(c - 0x37)
    else None
  }

  predicate HexAt(s: Str) {
    |s| >= 6 && s[0] == BACKSLASH && s[1] == LETTER_U &&
    HexValue(s[2]).Some? && HexValue(s[3]).Some? && HexValue(s[4]).Some? && HexValue(s[5]).Some?
  }

  function HexCode(s: Str): (u: Code)
    requires HexAt(s)
    ensures u < 0x10000
  {
    HexValue(s[2]).value * 4096 + HexValue(s[3]).value * 256 + HexValue(s[4]).value * 16 + HexValue(s[5]).value
  }

  predicate LowAhead(s: Str) { HexAt(s) && Low(HexCode(s)) }

  function Unescape(e: Code): Option<Code> {
    if e == QUOTE || e == BACKSLASH || e == 0x2f then Some(e)
    else if e == 0x6e then Some(0x0a)
    else if e == 0x72 then Some(0x0d)
    else if e == 0x74 then Some(0x09)
    else if e == 0x66 then Some(0x0c)
    else if e == 0x62 then Some(0x08)
    else None
  }

  /** An escape at the head of `s`; two \u escapes that make a surrogate pair are one code point. */
  function ParseEscape(s: Str): (r: Option<Parsed<Code>>)
    requires s != []
    ensures r.Some? ==> |r.value.rest| < |s|
  {
    if |s| < 2 then None
    else if s[1] != LETTER_U then
      if Unescape(s[1]).None? then None else Some(Parsed(Unescape(s[1]).value, s[2..]))
    else if !HexAt(s) then None
    else if High(HexCode(s)) && LowAhead(s[6..]) then Some(Parsed(Join(HexCode(s), HexCode(s[6..])), s[12..]))
    else Some(Parsed(HexCode(s), s[6..]))
  }

  function Prepend<T>(x: T, r: Option<Parsed<seq<T>>>): Option<Parsed<seq<T>>> {
    match r
    case None => None
    case Some(p) => Some(Parsed([x] + p.value, p.rest))
  }

  /** The rest of a string literal; raw control characters are refused. */
  function ParseString(s: Str): (r: Option<Parsed<Str>>)
    ensures r.Some? ==> |r.value.rest| < |s|
    decreases |s|
  {
    if s == [] then None
    else if s[0] == QUOTE then Some(Parsed([], s[1..]))
    else if s[0] == BACKSLASH then
      var e := ParseEscape(s);
      if e.None? then None else Prepend(e.value.value, ParseString(e.value.rest))
    else if s[0] < 0x20 then None
    else Prepend(s[0], ParseString(s[1..]))
  }

  predicate Digit(c: Code) { 0x30 <= c <= 0x39 }

  predicate DigitAhead(s: Str) { s != [] && Digit(s[0]) }

  function ParseDigits(s: Str, acc: nat): (p: Parsed<nat>)
    ensures |p.rest| <= |s| && !DigitAhead(p.rest)
  {
    if DigitAhead(s) then ParseDigits(s[1..], acc * 10 + (s[0] - 0x30)) else Parsed(acc, s)
  }

  /** What follows an integer part: the rest after a fraction and an exponent, `s` itself if there is neither. */
  function AfterFraction(s: Str): (rest: Str)
    ensures |rest| <= |s|
  {
    if s != [] && s[0] == DOT && DigitAhead(s[1..]) then ParseDigits(s[1..], 0).rest else s
  }

  function AfterExponent(s: Str): (rest: Str)
    ensures |rest| <= |s|
  {
    if s == [] || (s[0] != 0x65 && s[0] != 0x45) then s
    else
      var t := if |s| > 1 && (s[1] == MINUS || s[1] == 0x2b) then s[2..] else s[1..];
      if DigitAhead(t) then ParseDigits(t, 0).rest else s
  }

  /** A number without its sign. */
  function ParseMagnitude(s: Str): (p: Parsed<nat>)
    requires DigitAhead(s)
    ensures |p.rest| < |s|
  {
    if s[0] == 0x30 then Parsed(0, s[1..]) else ParseDigits(s[1..], s[0] - 0x30)
  }

  function ParseNumber(s: Str): (r: Option<Parsed<Json>>)
    ensures r.Some? ==> |r.value.rest| < |s|
  {
    var negative := s != [] && s[0] == MINUS;
    var t := if negative then s[1..] else s;
    if !DigitAhead(t) then None
    else
      var m := ParseMagnitude(t);
      var rest := AfterExponent(AfterFraction(m.rest));
      if rest != m.rest then Some(Parsed(Float(s[..|s| - |rest|]), rest))
      else
        var i: int := if negative then 0 - m.value else m.value;
        Some(Parsed(Int(i), m.rest))
  }

  function SkipSpace(s: Str): (rest: Str)
    ensures |rest| <= |s|
  {
    if s != [] && (s[0] == 0x20 || s[0] == 0x09 || s[0] == 0x0a || s[0] == 0x0d) then SkipSpace(s[1..]) else s
  }

  predicate Ahead(s: Str, word: Str) { |word| <= |s| && forall i :: 0 <= i < |word| ==> s[i] == word[i] }

  /** dict[key] = value: a key that is there keeps its place. */
  function SetItem(d: seq<Member>, m: Member): (r: seq<Member>) {
    if d == [] then [m]
    else if d[0].key == m.key then [m] + d[1..]
    else [d[0]] + SetItem(d[1..], m)
  }

  /** The dict that setting the members one after the other gives. */
  function Merged(members: seq<Member>): seq<Member> {
    if members == [] then [] else SetItem(Merged(members[..|members| - 1]), members[|members| - 1])
  }

  /** The literal names, and the three that json.loads adds to the standard's. */
  function ParseWord(s: Str): (r: Option<Parsed<Json>>)
    ensures r.Some? ==> |r.value.rest| < |s|
  {
    if Ahead(s, NULL) then Some(Parsed(Null, s[4..]))
    else if Ahead(s, TRUE) then Some(Parsed(Bool(true), s[4..]))
    else if Ahead(s, FALSE) then Some(Parsed(Bool(false), s[5..]))
    else if Ahead(s, NAN) then Some(Parsed(Float(NAN), s[3..]))
    else if Ahead(s, INFINITY) then Some(Parsed(Float(INFINITY), s[8..]))
    else if Ahead(s, [MINUS] + INFINITY) then Some(Parsed(Float([MINUS] + INFINITY), s[9..]))
    else None
  }

  function ParseValue(s: Str): (r: Option<Parsed<Json>>)
    ensures r.Some? ==> |r.value.rest| < |s|
    decreases |s|, 0
  {
    if s == [] then None
    else if s[0] == QUOTE then
      var r := ParseString(s[1..]);
      if r.None? then None else Some(Parsed(String(r.value.value), r.value.rest))
    else if s[0] == OPEN_BRACE then ParseObject(SkipSpace(s[1..]))
    else if s[0] == OPEN_BRACKET then ParseArray(SkipSpace(s[1..]))
    else if ParseWord(s).Some? then ParseWord(s)
    else ParseNumber(s)
  }

  /** An object behind its opening brace. */
  function ParseObject(t: Str): (r: Option<Parsed<Json>>)
    ensures r.Some? ==> |r.value.rest| <= |t|
    decreases |t|, 3
  {
    if t != [] && t[0] == CLOSE_BRACE then Some(Parsed(Json.Object([]), t[1..]))
    else
      var r := ParseMembers(t);
      if r.None? then None else Some(Parsed(Json.Object(Merged(r.value.value)), r.value.rest))
  }

  /** An array behind its opening bracket. */
  function ParseArray(t: Str): (r: Option<Parsed<Json>>)
    ensures r.Some? ==> |r.value.rest| <= |t|
    decreases |t|, 3
  {
    if t != [] && t[0] == CLOSE_BRACKET then Some(Parsed(Array([]), t[1..]))
    else
      var r := ParseItems(t);
      if r.None? then None else Some(Parsed(Array(r.value.value), r.value.rest))
  }

  function ParseItems(s: Str): (r: Option<Parsed<seq<Json>>>)
    ensures r.Some? ==> |r.value.rest| < |s|
    decreases |s|, 1
  {
    var v := ParseValue(s);
    if v.None? then None
    else
      var t := SkipSpace(v.value.rest);
      if t == [] then None
      else if t[0] == CLOSE_BRACKET then Some(Parsed([v.value.value], t[1..]))
      else if t[0] == COMMA then Prepend(v.value.value, ParseItems(SkipSpace(t[1..])))
      else None
  }

  function ParseMember(s: Str): (r: Option<Parsed<Member>>)
    ensures r.Some? ==> |r.value.rest| < |s|
    decreases |s|, 1
  {
    if s == [] || s[0] != QUOTE then None
    else
      var k := ParseString(s[1..]);
      if k.None? then None
      else
        var t := SkipSpace(k.value.rest);
        if t == [] || t[0] != COLON then None
        else
          var v := ParseValue(SkipSpace(t[1..]));
          if v.None? then None else Some(Parsed(Member(k.value.value, v.value.value), v.value.rest))
  }

  function ParseMembers(s: Str): (r: Option<Parsed<seq<Member>>>)
    ensures r.Some? ==> |r.value.rest| < |s|
    decreases |s|, 2
  {
    var m := ParseMember(s);
    if m.None? then None
    else
      var t := SkipSpace(m.value.rest);
      if t == [] then None
      else if t[0] == CLOSE_BRACE then Some(Parsed([m.value.value], t[1..]))
      else if t[0] == COMMA then Prepend(m.value.value, ParseMembers(SkipSpace(t[1..])))
      else None
  }

  /** None for a text json.loads raises on. */
  function Loads(s: Str): Option<Json> {
    if s != [] && s[0] == 0xfeff then None
    else
      var r := ParseValue(SkipSpace(s));
      if r.Some? && SkipSpace(r.value.rest) == [] then Some(r.value.value) else None
  }

  // ---------------------------------------------------------------- strings read back

  lemma HexDigitReads(d: nat)
    requires d < 16
    ensures HexValue(Hex(d)) == Some(d)
  {
  }

  lemma HexSum(u: nat)
    ensures u == u / 4096 * 4096 + u / 256 % 16 * 256 + u / 16 % 16 * 16 + u % 16
  {
    assert u / 4096 == u / 256 / 16 && u / 256 == u / 16 / 16;
  }

  lemma HexReads(u: nat, rest: Str)
    requires u < 0x10000
    ensures HexAt(HexTo(u, rest)) && HexCode(HexTo(u, rest)) == u && HexTo(u, rest)[6..] == rest
  {
    var t := HexTo(u, rest);
    var a, b, c, d := u / 4096, u / 256 % 16, u / 16 % 16, u % 16;
    assert t[0] == BACKSLASH && t[1] == LETTER_U && t[2] == Hex(a) && t[3] == Hex(b) && t[4] == Hex(c) &&
        t[5] == Hex(d);
    HexDigitReads(a);
    HexDigitReads(b);
    HexDigitReads(c);
    HexDigitReads(d);
    HexSum(u);
  }

  lemma UnitLowAhead(c: Code, t: Str)
    ensures LowAhead(UnitTo(c, t)) <==> Low(c)
  {
    if ShortEscape(c).Some? {
      assert ShortEscape(c).value != LETTER_U;
    } else if 0x20 <= c <= 0x7e {
    } else if c < 0x10000 {
      HexReads(c, t);
    } else {
      HexReads(HighOf(c), HexTo(LowOf(c), t));
    }
  }

  /** The text of a string starts with the escape of a low surrogate exactly when the string starts with one. */
  lemma LowAheadIs(s: Str, rest: Str)
    ensures LowAhead(EscapedTo(s, [QUOTE] + rest)) <==> s != [] && Low(s[0])
  {
    if s != [] {
      UnitLowAhead(s[0], EscapedTo(s[1..], [QUOTE] + rest));
    }
  }

  lemma ShortEscapeReads(c: Code, t: Str)
    requires ShortEscape(c).Some?
    ensures ParseString(UnitTo(c, t)) == Prepend(c, ParseString(t))
  {
    var e := ShortEscape(c).value;
    assert Unescape(e) == Some(c) && e != LETTER_U;
    var u := [BACKSLASH, e] + t;
    assert u[0] == BACKSLASH && u[1] == e && u[2..] == t;
  }

  lemma WideReads(c: Code, t: Str)
    requires c >= 0x10000
    ensures ParseString(UnitTo(c, t)) == Prepend(c, ParseString(t))
  {
    HalvesJoin(c);
    PairReads(HighOf(c), LowOf(c), t);
    assert ShortEscape(c) == None;
  }

  /** A code point reads back as itself, but for a high surrogate with a low one behind it. */
  lemma UnitReads(c: Code, t: Str)
    requires !(High(c) && LowAhead(t))
    ensures ParseString(UnitTo(c, t)) == Prepend(c, ParseString(t))
  {
    if ShortEscape(c).Some? {
      ShortEscapeReads(c, t);
    } else if 0x20 <= c <= 0x7e {
      assert ([c] + t)[1..] == t;
    } else if c < 0x10000 {
      HexReads(c, t);
    } else {
      WideReads(c, t);
    }
  }

  lemma PairReads(high: Code, low: Code, t: Str)
    requires High(high) && Low(low)
    ensures ParseString(HexTo(high, HexTo(low, t))) == Prepend(Join(high, low), ParseString(t))
  {
    HexReads(high, HexTo(low, t));
    HexReads(low, t);
    var u := HexTo(high, HexTo(low, t));
    assert u[12..] == u[6..][6..];
  }

  lemma {:induction false} EscapedReads(s: Str, rest: Str)
    ensures ParseString(EscapedTo(s, [QUOTE] + rest)) == Some(Parsed(Joined(s), rest))
    decreases |s|
  {
    if s == [] {
      assert ([QUOTE] + rest)[1..] == rest;
    } else if |s| > 1 && High(s[0]) && Low(s[1]) {
      var t := EscapedTo(s[2..], [QUOTE] + rest);
      assert s[1..][1..] == s[2..];
      assert EscapedTo(s, [QUOTE] + rest) == HexTo(s[0], HexTo(s[1], t));
      PairReads(s[0], s[1], t);
      EscapedReads(s[2..], rest);
    } else {
      LowAheadIs(s[1..], rest);
      UnitReads(s[0], EscapedTo(s[1..], [QUOTE] + rest));
      EscapedReads(s[1..], rest);
    }
  }

  // ---------------------------------------------------------------- integers read back

  lemma {:induction false} DigitsRead(n: nat, rest: Str)
    ensures ParseDigits(DigitsTo(n, rest), 0) == ParseDigits(rest, n)
    decreases n
  {
    if n < 10 {
      assert ([0x30 + n] + rest)[1..] == rest;
    } else {
      var t := [0x30 + n % 10] + rest;
      DigitsRead(n / 10, t);
      assert t[1..] == rest;
    }
  }

  lemma {:induction false} DigitsStart(n: nat, rest: Str)
    ensures DigitAhead(DigitsTo(n, rest)) && |DigitsTo(n, rest)| > |rest|
    ensures DigitsTo(n, rest)[0] == 0x30 ==> n == 0
    decreases n
  {
    if n >= 10 {
      DigitsStart(n / 10, [0x30 + n % 10] + rest);
    }
  }

  /** What may follow a value inside a compact text. */
  predicate Delimited(rest: Str) {
    rest == [] || rest[0] == COMMA || rest[0] == CLOSE_BRACKET || rest[0] == CLOSE_BRACE
  }

  lemma MagnitudeReads(n: nat, rest: Str)
    requires Delimited(rest)
    ensures DigitAhead(DigitsTo(n, rest)) && ParseMagnitude(DigitsTo(n, rest)) == Parsed(n, rest)
  {
    var t := DigitsTo(n, rest);
    DigitsStart(n, rest);
    if n == 0 {
      assert t == [0x30] + rest && t[1..] == rest;
    } else {
      DigitsRead(n, rest);
      assert ParseDigits(t, 0) == ParseDigits(t[1..], t[0] - 0x30);
    }
  }

  lemma IntReads(i: int, rest: Str)
    requires Delimited(rest)
    ensures ParseValue(IntTo(i, rest)) == Some(Parsed(Int(i), rest))
  {
    if i < 0 {
      MagnitudeReads(-i, rest);
      var t := DigitsTo(-i, rest);
      assert IntTo(i, rest)[1..] == t;
      assert IntTo(i, rest)[1] == t[0];
    } else {
      MagnitudeReads(i, rest);
    }
    NumberAhead(IntTo(i, rest));
  }

  /** A text that starts like an integer is read as a number. */
  lemma NumberAhead(s: Str)
    requires DigitAhead(s) || (|s| > 1 && s[0] == MINUS && Digit(s[1]))
    ensures ParseValue(s) == ParseNumber(s)
  {
    NoWord(s);
  }

  lemma NoWord(s: Str)
    requires DigitAhead(s) || (|s| > 1 && s[0] == MINUS && Digit(s[1]))
    ensures ParseWord(s) == None
  {
    NotAhead(s, NULL, 0);
    NotAhead(s, TRUE, 0);
    NotAhead(s, FALSE, 0);
    NotAhead(s, NAN, 0);
    NotAhead(s, INFINITY, 0);
    NotAhead(s, [MINUS] + INFINITY, if s[0] == MINUS then 1 else 0);
  }

  lemma NotAhead(s: Str, word: Str, k: nat)
    requires k < |s| && k < |word| && s[k] != word[k]
    ensures !Ahead(s, word)
  {
  }

  // ---------------------------------------------------------------- floats read back

  predicate AllDigits(ds: Str) { forall i :: 0 <= i < |ds| ==> Digit(ds[i]) }

  /** The integer part, fraction and exponent of a number, section 6 of RFC 8259. */
  predicate Whole(w: Str) { w == [0x30] || (w != [] && AllDigits(w) && w[0] != 0x30) }

  predicate Fraction(f: Str) { f == [] || (|f| > 1 && f[0] == DOT && AllDigits(f[1..])) }

  predicate Signed(e: Str) { |e| > 1 && (e[1] == MINUS || e[1] == 0x2b) }

  predicate Exponent(e: Str) {
    || e == []
    || (|e| > 1 && (e[0] == 0x65 || e[0] == 0x45) &&
        if Signed(e) then |e| > 2 && AllDigits(e[2..]) else AllDigits(e[1..]))
  }

  ghost predicate FloatParts(sign: Str, whole: Str, fraction: Str, exponent: Str) {
    && (sign == [] || sign == [MINUS]) && Whole(whole) && Fraction(fraction) && Exponent(exponent)
    && (fraction != [] || exponent != [])
  }

  /** A text that denotes a float: a number with a fraction or an exponent, or one of the three names. */
  ghost predicate FloatText(t: Str) {
    || t == NAN || t == INFINITY || t == [MINUS] + INFINITY
    || exists sign, whole, fraction, exponent ::
         FloatParts(sign, whole, fraction, exponent) && t == sign + (whole + (fraction + exponent))
  }

  lemma {:induction false} DigitsPassed(ds: Str, rest: Str, acc: nat)
    requires AllDigits(ds) && !DigitAhead(rest)
    ensures ParseDigits(ds + rest, acc).rest == rest
    decreases |ds|
  {
    if ds == [] {
      assert ds + rest == rest;
    } else {
      assert (ds + rest)[1..] == ds[1..] + rest;
      DigitsPassed(ds[1..], rest, acc * 10 + (ds[0] - 0x30));
    }
  }

  lemma WholePassed(w: Str, rest: Str)
    requires Whole(w) && !DigitAhead(rest)
    ensures DigitAhead(w + rest) && ParseMagnitude(w + rest).rest == rest
  {
    assert (w + rest)[1..] == w[1..] + rest;
    if w == [0x30] {
      assert w[1..] + rest == rest;
    } else {
      DigitsPassed(w[1..], rest, w[0] - 0x30);
    }
  }

  lemma FractionPassed(f: Str, rest: Str)
    requires Fraction(f) && !DigitAhead(rest) && (f == [] ==> rest == [] || rest[0] != DOT)
    ensures AfterFraction(f + rest) == rest
  {
    if f == [] {
      assert f + rest == rest;
    } else {
      assert (f + rest)[1..] == f[1..] + rest;
      DigitsPassed(f[1..], rest, 0);
    }
  }

  lemma ExponentPassed(e: Str, rest: Str)
    requires Exponent(e) && Delimited(rest)
    ensures AfterExponent(e + rest) == rest
  {
    if e == [] {
      assert e + rest == rest;
    } else {
      assert (e + rest)[1..] == e[1..] + rest && (e + rest)[1] == e[1];
      if Signed(e) {
        assert (e + rest)[2..] == e[2..] + rest;
        DigitsPassed(e[2..], rest, 0);
      } else {
        DigitsPassed(e[1..], rest, 0);
      }
    }
  }

  /** The magnitude of a float, sign apart. */
  lemma MagnitudePassed(whole: Str, fraction: Str, exponent: Str, rest: Str)
    requires FloatParts([], whole, fraction, exponent) && Delimited(rest)
    ensures var s := whole + (fraction + (exponent + rest));
      && DigitAhead(s) && AfterExponent(AfterFraction(ParseMagnitude(s).rest)) == rest
      && ParseMagnitude(s).rest != rest
  {
    var tail := fraction + (exponent + rest);
    WholePassed(whole, tail);
    FractionPassed(fraction, exponent + rest);
    ExponentPassed(exponent, rest);
    assert |tail| > |rest|;
  }

  /** Reading a number is reading what follows its sign. */
  lemma SignPassed(sign: Str, s: Str)
    requires (sign == [] || sign == [MINUS]) && DigitAhead(s)
    ensures var m := ParseMagnitude(s).rest;
      var rest := AfterExponent(AfterFraction(m));
      rest != m ==> ParseNumber(sign + s) == Some(Parsed(Float((sign + s)[..|sign + s| - |rest|]), rest))
    ensures DigitAhead(sign + s) || (|sign + s| > 1 && (sign + s)[0] == MINUS && Digit((sign + s)[1]))
  {
    if sign == [] {
      assert sign + s == s;
    } else {
      assert (sign + s)[1..] == s && (sign + s)[1] == s[0];
    }
  }

  lemma Regroup(a: Str, b: Str, c: Str, d: Str, rest: Str)
    ensures (a + (b + (c + d))) + rest == a + (b + (c + (d + rest)))
  {
  }

  lemma TakeAll(t: Str, rest: Str)
    ensures (t + rest)[..|t + rest| - |rest|] == t
  {
  }

  lemma FloatReads(sign: Str, whole: Str, fraction: Str, exponent: Str, rest: Str)
    requires FloatParts(sign, whole, fraction, exponent) && Delimited(rest)
    ensures var t := sign + (whole + (fraction + exponent)); ParseValue(t + rest) == Some(Parsed(Float(t), rest))
  {
    Regroup(sign, whole, fraction, exponent, rest);
    MagnitudePassed(whole, fraction, exponent, rest);
    SignPassed(sign, whole + (fraction + (exponent + rest)));
    NumberAhead(sign + (whole + (fraction + (exponent + rest))));
    TakeAll(sign + (whole + (fraction + exponent)), rest);
  }

  lemma FloatStarts(sign: Str, whole: Str, fraction: Str, exponent: Str)
    requires FloatParts(sign, whole, fraction, exponent)
    ensures var t := sign + (whole + (fraction + exponent)); t != [] && Opens(t[0])
  {
    var t := sign + (whole + (fraction + exponent));
    assert t[0] == if sign == [] then whole[0] else MINUS;
  }

  lemma PartsPrint(sign: Str, whole: Str, fraction: Str, exponent: Str)
    requires FloatParts(sign, whole, fraction, exponent)
    ensures var t := sign + (whole + (fraction + exponent)); forall i :: 0 <= i < |t| ==> Printable(t[i])
  {
    AllPrint(whole);
    FractionPrints(fraction);
    ExponentPrints(exponent);
  }

  lemma AllPrint(w: Str)
    requires Whole(w)
    ensures forall i :: 0 <= i < |w| ==> Printable(w[i])
  {
  }

  lemma FractionPrints(f: Str)
    requires Fraction(f)
    ensures forall i :: 0 <= i < |f| ==> Printable(f[i])
  {
    assert forall i :: 0 < i < |f| ==> f[i] == f[1..][i - 1];
  }

  lemma ExponentPrints(e: Str)
    requires Exponent(e)
    ensures forall i :: 0 <= i < |e| ==> Printable(e[i])
  {
    if Signed(e) {
      assert forall i :: 1 < i < |e| ==> e[i] == e[2..][i - 2];
    } else {
      assert forall i :: 0 < i < |e| ==> e[i] == e[1..][i - 1];
    }
  }

  lemma NameReads(t: Str, rest: Str)
    requires t == NAN || t == INFINITY || t == [MINUS] + INFINITY
    ensures ParseValue(t + rest) == Some(Parsed(Float(t), rest)) && Prints(t + rest, rest) && Opens((t + rest)[0])
  {
    assert (t + rest)[|t|..] == rest;
    NotAhead(t + rest, NULL, 0);
    NotAhead(t + rest, TRUE, 0);
    NotAhead(t + rest, FALSE, 0);
    if t != NAN {
      NotAhead(t + rest, NAN, 0);
    }
    if t[0] == MINUS {
      NotAhead(t + rest, INFINITY, 0);
    }
    PrintsWord(t, rest);
  }

  lemma FloatTextReads(t: Str, rest: Str)
    requires FloatText(t) && Delimited(rest)
    ensures ParseValue(t + rest) == Some(Parsed(Float(t), rest))
  {
    if t == NAN || t == INFINITY || t == [MINUS] + INFINITY {
      NameReads(t, rest);
    } else {
      var sign, whole, fraction, exponent :|
        FloatParts(sign, whole, fraction, exponent) && t == sign + (whole + (fraction + exponent));
      FloatReads(sign, whole, fraction, exponent, rest);
    }
  }

  lemma FloatTextPrints(t: Str, rest: Str)
    requires FloatText(t)
    ensures Prints(t + rest, rest) && t + rest != [] && Opens((t + rest)[0])
  {
    if t == NAN || t == INFINITY || t == [MINUS] + INFINITY {
      NameReads(t, rest);
    } else {
      var sign, whole, fraction, exponent :|
        FloatParts(sign, whole, fraction, exponent) && t == sign + (whole + (fraction + exponent));
      FloatStarts(sign, whole, fraction, exponent);
      PartsPrint(sign, whole, fraction, exponent);
      PrintsWord(t, rest);
    }
  }

  // ---------------------------------------------------------------- values read back

  /** A Python value: the keys of a dict are distinct, and a float is a text that denotes one. */
  ghost predicate Storable(v: Json) {
    match v
    case Float(text) => FloatText(text)
    case Array(items) => StorableItems(items)
    case Object(members) => StorableMembers(members) && DistinctKeys(members)
    case _ => true
  }

  ghost predicate StorableItems(items: seq<Json>) {
    items == [] || (Storable(items[0]) && StorableItems(items[1..]))
  }

  ghost predicate StorableMembers(members: seq<Member>) {
    members == [] || (Storable(members[0].value) && StorableMembers(members[1..]))
  }

  predicate DistinctKeys(members: seq<Member>) {
    forall i, j :: 0 <= i < j < |members| ==> members[i].key != members[j].key
  }

  /** The value that comes back: the surrogate pairs of every string joined, and keys that became equal merged. */
  function Reloaded(v: Json): Json {
    match v
    case String(s) => String(Joined(s))
    case Array(items) => Array(ReloadedItems(items))
    case Object(members) => Json.Object(Merged(ReloadedMembers(members)))
    case _ => v
  }

  function ReloadedItems(items: seq<Json>): (r: seq<Json>)
    ensures |r| == |items|
  {
    if items == [] then [] else [Reloaded(items[0])] + ReloadedItems(items[1..])
  }

  function ReloadedMember(m: Member): Member { Member(Joined(m.key), Reloaded(m.value)) }

  function ReloadedMembers(members: seq<Member>): (r: seq<Member>)
    ensures |r| == |members|
  {
    if members == [] then []
    else [ReloadedMember(members[0])] + ReloadedMembers(members[1..])
  }

  /** A character that begins no whitespace and closes no bracket. */
  predicate Opens(c: Code) {
    c != 0x20 && c != 0x09 && c != 0x0a && c != 0x0d && c != CLOSE_BRACKET && c != CLOSE_BRACE && c != 0xfeff
  }

  lemma PrintStarts(v: Json, rest: Str)
    requires Storable(v)
    ensures PrintTo(v, rest) != [] && Opens(PrintTo(v, rest)[0])
  {
    if v.Int? {
      DigitsStart(if v.i < 0 then -v.i else v.i, rest);
    } else if v.Float? {
      FloatTextPrints(v.text, rest);
    }
  }

  lemma StringReads(s: Str, rest: Str)
    ensures StringTo(s, rest)[0] == QUOTE
    ensures ParseString(StringTo(s, rest)[1..]) == Some(Parsed(Joined(s), rest))
  {
    EscapedReads(s, rest);
    assert StringTo(s, rest)[1..] == EscapedTo(s, [QUOTE] + rest);
  }

  lemma WordReads(v: Json, rest: Str)
    requires v.Null? || v.Bool?
    ensures ParseValue(PrintTo(v, rest)) == Some(Parsed(v, rest))
  {
    var t := PrintTo(v, rest);
    if v.Null? {
      assert t[0] == 0x6e && t[..4] == NULL && t[4..] == rest;
    } else if v.b {
      assert t[0] == 0x74 && t[..4] == TRUE && t[4..] == rest;
    } else {
      assert t[0] == 0x66 && t[..5] == FALSE && t[5..] == rest;
    }
  }

  /** Reading back what dumps wrote, whatever may follow it. */
  lemma {:induction false} ValueReads(v: Json, rest: Str)
    requires Storable(v) && Delimited(rest)
    ensures ParseValue(PrintTo(v, rest)) == Some(Parsed(Reloaded(v), rest))
    decreases v
  {
    match v
    case Int(i) => IntReads(i, rest);
    case Float(text) => FloatTextReads(text, rest);
    case String(s) => StringReads(s, rest);
    case Array(items) =>
      if items != [] {
        ItemsRead(items, rest);
      }
      ArrayReads(items, rest);
    case Object(members) =>
      if members != [] {
        MembersRead(members, rest);
      }
      ObjectReads(members, rest);
    case _ => WordReads(v, rest);
  }

  lemma ArrayReads(items: seq<Json>, rest: Str)
    requires StorableItems(items)
    requires items != [] ==>
        ParseItems(ItemsTo(items, [CLOSE_BRACKET] + rest)) == Some(Parsed(ReloadedItems(items), rest))
    ensures ParseValue(PrintTo(Array(items), rest)) == Some(Parsed(Array(ReloadedItems(items)), rest))
  {
    var t := ItemsTo(items, [CLOSE_BRACKET] + rest);
    assert PrintTo(Array(items), rest)[1..] == t;
    if items == [] {
      assert t[1..] == rest;
    } else {
      ItemsStart(items, [CLOSE_BRACKET] + rest);
    }
  }

  lemma ObjectReads(members: seq<Member>, rest: Str)
    requires members != [] ==>
        ParseMembers(MembersTo(members, [CLOSE_BRACE] + rest)) == Some(Parsed(ReloadedMembers(members), rest))
    ensures ParseValue(PrintTo(Json.Object(members), rest)) ==
        Some(Parsed(Json.Object(Merged(ReloadedMembers(members))), rest))
  {
    var t := MembersTo(members, [CLOSE_BRACE] + rest);
    assert PrintTo(Json.Object(members), rest)[1..] == t;
    if members == [] {
      assert t[1..] == rest;
    } else {
      MembersStart(members, [CLOSE_BRACE] + rest);
    }
  }

  lemma ItemsStart(items: seq<Json>, rest: Str)
    requires items != [] && StorableItems(items)
    ensures ItemsTo(items, rest) != [] && Opens(ItemsTo(items, rest)[0])
  {
    if |items| == 1 {
      PrintStarts(items[0], rest);
    } else {
      PrintStarts(items[0], [COMMA] + ItemsTo(items[1..], rest));
    }
  }

  lemma MembersStart(members: seq<Member>, rest: Str)
    requires members != []
    ensures MembersTo(members, rest) != [] && MembersTo(members, rest)[0] == QUOTE
  {
    if |members| == 1 {
      assert MemberTo(members[0], rest)[0] == QUOTE;
    } else {
      assert MemberTo(members[0], [COMMA] + MembersTo(members[1..], rest))[0] == QUOTE;
    }
  }

  /** One member, and the rest of the members behind a comma. */
  lemma MemberStep(m: Member, t: Str, more: Str)
    requires ParseMember(t) == Some(Parsed(m, [COMMA] + more)) && more != [] && Opens(more[0])
    ensures ParseMembers(t) == Prepend(m, ParseMembers(more))
  {
    assert ([COMMA] + more)[1..] == more;
  }

  lemma {:induction false} ItemsRead(items: seq<Json>, rest: Str)
    requires items != [] && StorableItems(items)
    ensures ParseItems(ItemsTo(items, [CLOSE_BRACKET] + rest)) == Some(Parsed(ReloadedItems(items), rest))
    decreases items
  {
    var close := [CLOSE_BRACKET] + rest;
    if |items| == 1 {
      ValueReads(items[0], close);
      assert close[1..] == rest;
      assert ReloadedItems(items) == [Reloaded(items[0])];
    } else {
      var more := [COMMA] + ItemsTo(items[1..], close);
      ValueReads(items[0], more);
      ItemsStart(items[1..], close);
      ItemsRead(items[1..], rest);
      assert more[1..] == ItemsTo(items[1..], close);
    }
  }

  lemma {:induction false} MemberReads(m: Member, rest: Str)
    requires Storable(m.value) && Delimited(rest)
    ensures ParseMember(MemberTo(m, rest)) == Some(Parsed(ReloadedMember(m), rest))
    decreases m
  {
    var value := PrintTo(m.value, rest);
    StringReads(m.key, [COLON] + value);
    PrintStarts(m.value, rest);
    ValueReads(m.value, rest);
    assert ([COLON] + value)[1..] == value;
  }

  lemma {:induction false} MembersRead(members: seq<Member>, rest: Str)
    requires members != [] && StorableMembers(members)
    ensures ParseMembers(MembersTo(members, [CLOSE_BRACE] + rest)) == Some(Parsed(ReloadedMembers(members), rest))
    decreases members
  {
    var close := [CLOSE_BRACE] + rest;
    if |members| == 1 {
      MemberReads(members[0], close);
      assert close[1..] == rest;
      assert ReloadedMembers(members) == [ReloadedMember(members[0])];
    } else {
      var more := MembersTo(members[1..], close);
      MemberReads(members[0], [COMMA] + more);
      MembersStart(members[1..], close);
      MemberStep(ReloadedMember(members[0]), MembersTo(members, close), more);
      MembersRead(members[1..], rest);
    }
  }

  /** json.loads of what json.dumps wrote. */
  lemma LoadsDumps(v: Json)
    requires Storable(v)
    ensures Loads(Dumps(v)) == Some(Reloaded(v))
  {
    PrintStarts(v, []);
    ValueReads(v, []);
  }

  // ---------------------------------------------------------------- which values come back unchanged

  /** No string and no key anywhere in the value has a high surrogate directly followed by a low one. */
  predicate PairFree(v: Json) {
    match v
    case String(s) => Unpaired(s)
    case Array(items) => PairFreeItems(items)
    case Object(members) => PairFreeMembers(members)
    case _ => true
  }

  predicate PairFreeItems(items: seq<Json>) {
    items == [] || (PairFree(items[0]) && PairFreeItems(items[1..]))
  }

  predicate PairFreeMembers(members: seq<Member>) {
    members == [] || (Unpaired(members[0].key) && PairFree(members[0].value) && PairFreeMembers(members[1..]))
  }

  predicate HasKey(d: seq<Member>, key: Str) { exists i :: 0 <= i < |d| && d[i].key == key }

  lemma {:induction false} SetItemIs(d: seq<Member>, m: Member)
    ensures HasKey(d, m.key) ==> |SetItem(d, m)| == |d|
    ensures !HasKey(d, m.key) ==> SetItem(d, m) == d + [m]
  {
    if d != [] && d[0].key != m.key {
      SetItemIs(d[1..], m);
      if HasKey(d, m.key) {
        var i :| 0 <= i < |d| && d[i].key == m.key;
        assert d[1..][i - 1].key == m.key;
      } else {
        assert !HasKey(d[1..], m.key) by {
          assert forall i :: 0 <= i < |d[1..]| ==> d[1..][i] == d[i + 1];
        }
      }
    }
  }

  lemma {:induction false} MergedIs(members: seq<Member>)
    ensures DistinctKeys(members) ==> Merged(members) == members
    ensures |Merged(members)| <= |members|
    ensures !DistinctKeys(members) ==> |Merged(members)| < |members|
    decreases |members|
  {
    if members != [] {
      var n := |members| - 1;
      var earlier := members[..n];
      MergedIs(earlier);
      SetItemIs(Merged(earlier), members[n]);
      if DistinctKeys(earlier) {
        assert earlier + [members[n]] == members;
        if !HasKey(earlier, members[n].key) {
          assert DistinctKeys(members);
        }
      }
    }
  }

  /** A value comes back unchanged exactly when it is free of surrogate pairs. */
  lemma {:induction false} ReloadedUnchanged(v: Json)
    requires Storable(v)
    ensures Reloaded(v) == v <==> PairFree(v)
    decreases v
  {
    match v
    case String(s) => JoinedUnpaired(s);
    case Array(items) => ItemsUnchanged(items);
    case Object(members) =>
      MembersUnchanged(members);
      MergedIs(ReloadedMembers(members));
    case _ =>
  }

  lemma {:induction false} ItemsUnchanged(items: seq<Json>)
    requires StorableItems(items)
    ensures ReloadedItems(items) == items <==> PairFreeItems(items)
    decreases items
  {
    if items != [] {
      ReloadedUnchanged(items[0]);
      ItemsUnchanged(items[1..]);
      assert items == [items[0]] + items[1..];
      assert ReloadedItems(items)[1..] == ReloadedItems(items[1..]);
    }
  }

  lemma {:induction false} MembersUnchanged(members: seq<Member>)
    requires StorableMembers(members)
    ensures ReloadedMembers(members) == members <==> PairFreeMembers(members)
    decreases members
  {
    if members != [] {
      JoinedUnpaired(members[0].key);
      ReloadedUnchanged(members[0].value);
      MembersUnchanged(members[1..]);
      assert members == [members[0]] + members[1..];
      assert ReloadedMembers(members)[1..] == ReloadedMembers(members[1..]);
      assert ReloadedMembers(members)[0] == ReloadedMember(members[0]);
    }
  }

  // ---------------------------------------------------------------- one line of printable ASCII

  predicate Printable(c: Code) { 0x20 <= c <= 0x7e }

  /** `t` is printable ASCII followed by `rest`. */
  predicate Prints(t: Str, rest: Str) {
    && |t| >= |rest| && t[|t| - |rest|..] == rest
    && forall i :: 0 <= i < |t| - |rest| ==> Printable(t[i])
  }

  lemma PrintsJoin(t: Str, u: Str, rest: Str)
    requires Prints(t, u) && Prints(u, rest)
    ensures Prints(t, rest)
  {
    assert forall i :: |t| - |u| <= i < |t| ==> t[i] == u[i - (|t| - |u|)];
  }

  lemma PrintsWord(word: Str, rest: Str)
    requires forall i :: 0 <= i < |word| ==> Printable(word[i])
    ensures Prints(word + rest, rest)
  {
  }

  lemma UnitPrints(c: Code, rest: Str)
    ensures Prints(UnitTo(c, rest), rest)
  {
    if ShortEscape(c).Some? {
    } else if 0x20 <= c <= 0x7e {
    } else if c < 0x10000 {
      HexPrints(c, rest);
    } else {
      HexPrints(LowOf(c), rest);
      HexPrints(HighOf(c), HexTo(LowOf(c), rest));
      PrintsJoin(UnitTo(c, rest), HexTo(LowOf(c), rest), rest);
    }
  }

  lemma HexPrints(u: nat, rest: Str)
    requires u < 0x10000
    ensures Prints(HexTo(u, rest), rest)
  {
    PrintsWord([BACKSLASH, LETTER_U, Hex(u / 4096), Hex(u / 256 % 16), Hex(u / 16 % 16), Hex(u % 16)], rest);
  }

  lemma {:induction false} EscapedPrints(s: Str, rest: Str)
    ensures Prints(EscapedTo(s, rest), rest)
    decreases |s|
  {
    if s != [] {
      var t := EscapedTo(s[1..], rest);
      EscapedPrints(s[1..], rest);
      UnitPrints(s[0], t);
      PrintsJoin(UnitTo(s[0], t), t, rest);
    }
  }

  lemma StringPrints(s: Str, rest: Str)
    ensures Prints(StringTo(s, rest), rest)
  {
    var close := [QUOTE] + rest;
    PrintsWord([QUOTE], rest);
    EscapedPrints(s, close);
    PrintsWord([QUOTE], EscapedTo(s, close));
    PrintsJoin(EscapedTo(s, close), close, rest);
    PrintsJoin(StringTo(s, rest), EscapedTo(s, close), rest);
  }

  lemma {:induction false} DigitsPrint(n: nat, rest: Str)
    ensures Prints(DigitsTo(n, rest), rest)
    decreases n
  {
    var d := [0x30 + n % 10];
    PrintsWord(d, rest);
    if n >= 10 {
      DigitsPrint(n / 10, d + rest);
      PrintsJoin(DigitsTo(n, rest), d + rest, rest);
    }
  }

  lemma IntPrints(i: int, rest: Str)
    ensures Prints(IntTo(i, rest), rest)
  {
    DigitsPrint(if i < 0 then -i else i, rest);
    if i < 0 {
      PrintsWord([MINUS], DigitsTo(-i, rest));
      PrintsJoin(IntTo(i, rest), DigitsTo(-i, rest), rest);
    }
  }

  /** Opening bracket, contents, closing bracket. */
  lemma BracketsPrint(open: Code, inner: Str, close: Code, rest: Str)
    requires Printable(open) && Printable(close) && Prints(inner, [close] + rest)
    ensures Prints([open] + inner, rest)
  {
    PrintsWord([close], rest);
    PrintsJoin(inner, [close] + rest, rest);
    PrintsWord([open], inner);
    PrintsJoin([open] + inner, inner, rest);
  }

  lemma {:induction false} ValuePrints(v: Json, rest: Str)
    requires Storable(v)
    ensures Prints(PrintTo(v, rest), rest)
    decreases v
  {
    match v
    case Null => PrintsWord(NULL, rest);
    case Bool(b) => PrintsWord(if b then TRUE else FALSE, rest);
    case Int(i) => IntPrints(i, rest);
    case Float(text) => FloatTextPrints(text, rest);
    case String(s) => StringPrints(s, rest);
    case Array(items) =>
      ItemsPrint(items, [CLOSE_BRACKET] + rest);
      BracketsPrint(OPEN_BRACKET, ItemsTo(items, [CLOSE_BRACKET] + rest), CLOSE_BRACKET, rest);
    case Object(members) =>
      MembersPrint(members, [CLOSE_BRACE] + rest);
      BracketsPrint(OPEN_BRACE, MembersTo(members, [CLOSE_BRACE] + rest), CLOSE_BRACE, rest);
  }

  lemma {:induction false} ItemsPrint(items: seq<Json>, rest: Str)
    requires StorableItems(items)
    ensures Prints(ItemsTo(items, rest), rest)
    decreases items
  {
    if |items| == 1 {
      ValuePrints(items[0], rest);
    } else if |items| > 1 {
      var more := ItemsTo(items[1..], rest);
      ItemsPrint(items[1..], rest);
      PrintsWord([COMMA], more);
      PrintsJoin([COMMA] + more, more, rest);
      ValuePrints(items[0], [COMMA] + more);
      PrintsJoin(ItemsTo(items, rest), [COMMA] + more, rest);
    }
  }

  lemma {:induction false} MemberPrints(m: Member, rest: Str)
    requires Storable(m.value)
    ensures Prints(MemberTo(m, rest), rest)
    decreases m
  {
    var value := PrintTo(m.value, rest);
    ValuePrints(m.value, rest);
    PrintsWord([COLON], value);
    PrintsJoin([COLON] + value, value, rest);
    StringPrints(m.key, [COLON] + value);
    PrintsJoin(MemberTo(m, rest), [COLON] + value, rest);
  }

  lemma {:induction false} MembersPrint(members: seq<Member>, rest: Str)
    requires StorableMembers(members)
    ensures Prints(MembersTo(members, rest), rest)
    decreases members
  {
    if |members| == 1 {
      MemberPrints(members[0], rest);
    } else if |members| > 1 {
      var more := MembersTo(members[1..], rest);
      MembersPrint(members[1..], rest);
      PrintsWord([COMMA], more);
      PrintsJoin([COMMA] + more, more, rest);
      MemberPrints(members[0], [COMMA] + more);
      PrintsJoin(MembersTo(members, rest), [COMMA] + more, rest);
    }
  }
}
