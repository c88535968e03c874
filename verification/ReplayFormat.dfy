/**
 The recording file spelled out (python/services/replay/store.py): the characters of a line, where lines end, which
 lines are passed over, and which decoded lines are a record, are skipped, or end the reading.
*/
module ReplayFormat {
  import opened Messages
  import opened PyJson
  import opened Replay
  import Base64

  // ---------------------------------------------------------------- the text of a line

  /** The code points of a text in ASCII. */
  ghost function Codes(s: string): Str {
    seq(|s|, i requires 0 <= i < |s| => if s[i] < '\U{0080}' then s[i] as int else 0)
  }

  lemma KeyNames()
    ensures CHANNEL == Codes("channel") && TS_NS == Codes("ts_ns")
    ensures HEADER == Codes("header") && PAYLOAD == Codes("payload")
  {
  }

  lemma Glued(a: Str, b: Str, c: Str)
    ensures (a + b) + c == a + (b + c)
  {
  }

  lemma {:induction false} EscapedToJoins(s: Str, a: Str, b: Str)
    ensures EscapedTo(s, a + b) == EscapedTo(s, a) + b
  {
    if s != [] {
      EscapedToJoins(s[1..], a, b);
      UnitToJoins(s[0], EscapedTo(s[1..], a), b);
    }
  }

  lemma UnitToJoins(c: Code, a: Str, b: Str)
    ensures UnitTo(c, a + b) == UnitTo(c, a) + b
  {
    if ShortEscape(c).Some? {
      Glued([BACKSLASH, ShortEscape(c).value], a, b);
    } else if 0x20 <= c <= 0x7e {
      Glued([c], a, b);
    } else if c < 0x10000 {
      HexToJoins(c, a, b);
    } else {
      HexToJoins(LowOf(c), a, b);
      HexToJoins(HighOf(c), HexTo(LowOf(c), a), b);
    }
  }

  lemma HexToJoins(u: nat, a: Str, b: Str)
    requires u < 0x10000
    ensures HexTo(u, a + b) == HexTo(u, a) + b
  {
    Glued([BACKSLASH, LETTER_U, Hex(u / 4096), Hex(u / 256 % 16), Hex(u / 16 % 16), Hex(u % 16)], a, b);
  }

  lemma StringToJoins(s: Str, a: Str, b: Str)
    ensures StringTo(s, a + b) == StringTo(s, a) + b
  {
    Glued([QUOTE], a, b);
    EscapedToJoins(s, [QUOTE] + a, b);
    Glued([QUOTE], EscapedTo(s, [QUOTE] + a), b);
  }

  lemma {:induction false} DigitsToJoins(n: nat, a: Str, b: Str)
    ensures DigitsTo(n, a + b) == DigitsTo(n, a) + b
  {
    Glued([0x30 + n % 10], a, b);
    if n >= 10 {
      DigitsToJoins(n / 10, [0x30 + n % 10] + a, b);
    }
  }

  lemma IntToJoins(i: int, a: Str, b: Str)
    ensures IntTo(i, a + b) == IntTo(i, a) + b
  {
    DigitsToJoins(if i < 0 then -i else i, a, b);
    if i < 0 {
      Glued([MINUS], DigitsTo(-i, a), b);
    }
  }

  /** A value's text does not depend on what follows it. */
  lemma {:induction false} PrintToJoins(v: Json, a: Str, b: Str)
    ensures PrintTo(v, a + b) == PrintTo(v, a) + b
    decreases v, 0
  {
    match v
    case Null => Glued(NULL, a, b);
    case Bool(x) => Glued(if x then TRUE else FALSE, a, b);
    case Int(i) => IntToJoins(i, a, b);
    case Float(text) => Glued(text, a, b);
    case String(s) => StringToJoins(s, a, b);
    case Array(items) =>
      Glued([CLOSE_BRACKET], a, b);
      ItemsToJoin(items, [CLOSE_BRACKET] + a, b);
      Glued([OPEN_BRACKET], ItemsTo(items, [CLOSE_BRACKET] + a), b);
    case Object(members) =>
      Glued([CLOSE_BRACE], a, b);
      MembersToJoin(members, [CLOSE_BRACE] + a, b);
      Glued([OPEN_BRACE], MembersTo(members, [CLOSE_BRACE] + a), b);
  }

  lemma {:induction false} ItemsToJoin(items: seq<Json>, a: Str, b: Str)
    ensures ItemsTo(items, a + b) == ItemsTo(items, a) + b
    decreases items, 1
  {
    if |items| == 1 {
      PrintToJoins(items[0], a, b);
    } else if |items| > 1 {
      ItemsToJoin(items[1..], a, b);
      Glued([COMMA], ItemsTo(items[1..], a), b);
      PrintToJoins(items[0], [COMMA] + ItemsTo(items[1..], a), b);
    }
  }

  lemma MemberToJoins(m: Member, a: Str, b: Str)
    ensures MemberTo(m, a + b) == MemberTo(m, a) + b
    decreases m, 1
  {
    PrintToJoins(m.value, a, b);
    Glued([COLON], PrintTo(m.value, a), b);
    StringToJoins(m.key, [COLON] + PrintTo(m.value, a), b);
  }

  lemma {:induction false} MembersToJoin(members: seq<Member>, a: Str, b: Str)
    ensures MembersTo(members, a + b) == MembersTo(members, a) + b
    decreases members, 1
  {
    if |members| == 1 {
      MemberToJoins(members[0], a, b);
    } else if |members| > 1 {
      MembersToJoin(members[1..], a, b);
      Glued([COMMA], MembersTo(members[1..], a), b);
      MemberToJoins(members[0], [COMMA] + MembersTo(members[1..], a), b);
    }
  }

  lemma TextThen(v: Json, rest: Str)
    ensures PrintTo(v, rest) == Dumps(v) + rest
  {
    PrintToJoins(v, [], rest);
    assert [] + rest == rest;
  }

  /** Printable and not escaped. */
  predicate PlainText(s: Str) {
    forall i :: 0 <= i < |s| ==> 0x20 <= s[i] <= 0x7e && s[i] != QUOTE && s[i] != BACKSLASH
  }

  lemma {:induction false} PlainEscapes(s: Str, rest: Str)
    requires PlainText(s)
    ensures EscapedTo(s, rest) == s + rest
  {
    if s == [] {
      assert s + rest == rest;
    } else {
      PlainEscapes(s[1..], rest);
      assert UnitTo(s[0], s[1..] + rest) == [s[0]] + (s[1..] + rest);
      assert s == [s[0]] + s[1..];
      Glued([s[0]], s[1..], rest);
    }
  }

  lemma {:induction false} EncodePlain(bytes: seq<Base64.Byte>)
    ensures PlainText(Base64.Encode(bytes))
    decreases |bytes|
  {
    if |bytes| >= 3 {
      EncodePlain(bytes[3..]);
      var group := [Base64.Letter(bytes[0] / 4), Base64.Letter(bytes[0] % 4 * 16 + bytes[1] / 16),
        Base64.Letter(bytes[1] % 16 * 4 + bytes[2] / 64), Base64.Letter(bytes[2] % 64)];
      assert PlainText(group);
      assert Base64.Encode(bytes) == group + Base64.Encode(bytes[3..]);
    }
  }

  lemma KeyText(key: Str, rest: Str)
    requires PlainText(key)
    ensures StringTo(key, [COLON] + rest) == ([QUOTE] + key + [QUOTE, COLON]) + rest
  {
    PlainEscapes(key, [QUOTE] + ([COLON] + rest));
    assert [QUOTE] + (key + ([QUOTE] + ([COLON] + rest))) == ([QUOTE] + key + [QUOTE, COLON]) + rest;
  }

  lemma MemberText(key: Str, v: Json, rest: Str)
    requires PlainText(key)
    ensures MemberTo(Member(key, v), rest) == ([QUOTE] + key + [QUOTE, COLON]) + (Dumps(v) + rest)
  {
    TextThen(v, rest);
    KeyText(key, Dumps(v) + rest);
  }

  lemma FourMembers(a: Member, b: Member, c: Member, d: Member, rest: Str)
    ensures MembersTo([a, b, c, d], rest) ==
      MemberTo(a, [COMMA] + MemberTo(b, [COMMA] + MemberTo(c, [COMMA] + MemberTo(d, rest))))
  {
    assert [a, b, c, d][1..] == [b, c, d] && [b, c, d][1..] == [c, d] && [c, d][1..] == [d];
    assert MembersTo([d], rest) == MemberTo(d, rest);
    assert MembersTo([c, d], rest) == MemberTo(c, [COMMA] + MemberTo(d, rest));
    assert MembersTo([b, c, d], rest) == MemberTo(b, [COMMA] + MemberTo(c, [COMMA] + MemberTo(d, rest)));
  }

  lemma PayloadText(text: Str, rest: Str)
    requires PlainText(text)
    ensures Dumps(String(text)) + rest == [QUOTE] + (text + ([QUOTE] + rest))
  {
    PlainEscapes(text, [QUOTE] + []);
    assert [QUOTE] + [] == [QUOTE];
    assert ([QUOTE] + (text + [QUOTE])) + rest == [QUOTE] + (text + ([QUOTE] + rest));
  }

  lemma KeysPlain()
    ensures PlainText(CHANNEL) && PlainText(TS_NS) && PlainText(HEADER) && PlainText(PAYLOAD)
  {
  }

  lemma FirstPieces()
    ensures Codes("{\"channel\":") == [OPEN_BRACE] + ([QUOTE] + CHANNEL + [QUOTE, COLON])
    ensures Codes(",\"ts_ns\":") == [COMMA] + ([QUOTE] + TS_NS + [QUOTE, COLON])
  {
  }

  lemma HeaderPiece()
    ensures Codes(",\"header\":") == [COMMA] + ([QUOTE] + HEADER + [QUOTE, COLON])
  {
  }

  lemma LastPieces()
    ensures Codes(",\"payload\":\"") == [COMMA] + ([QUOTE] + PAYLOAD + [QUOTE, COLON]) + [QUOTE]
    ensures Codes("\"}") == [QUOTE, CLOSE_BRACE]
  {
  }

  /** A record's line, character by character: the four keys in this order, compact, the payload in base64. */
  lemma LineIs(r: Record)
    ensures ToLine(r) ==
      Codes("{\"channel\":") + (Dumps(r.channel) + (Codes(",\"ts_ns\":") + (Dumps(Int(r.tsNs)) +
      (Codes(",\"header\":") + (Dumps(r.header) + (Codes(",\"payload\":\"") + (Base64.Encode(r.payload) +
      Codes("\"}"))))))))
  {
    KeysPlain();
    FirstPieces();
    HeaderPiece();
    LastPieces();
    EncodePlain(r.payload);
    LineUnder(r.channel, Int(r.tsNs), r.header, Base64.Encode(r.payload));
  }

  lemma LineUnder(channel: Json, ts: Json, header: Json, text: Str)
    requires PlainText(CHANNEL) && PlainText(TS_NS) && PlainText(HEADER) && PlainText(PAYLOAD) && PlainText(text)
    ensures Dumps(Json.Object([Member(CHANNEL, channel), Member(TS_NS, ts), Member(HEADER, header),
                               Member(PAYLOAD, String(text))])) ==
      ([OPEN_BRACE] + Lead(CHANNEL)) + (Dumps(channel) + (([COMMA] + Lead(TS_NS)) + (Dumps(ts) +
      (([COMMA] + Lead(HEADER)) + (Dumps(header) + (([COMMA] + Lead(PAYLOAD) + [QUOTE]) + (text +
      [QUOTE, CLOSE_BRACE])))))))
  {
    var close: Str := [CLOSE_BRACE] + [];
    var a, b, c, d := Member(CHANNEL, channel), Member(TS_NS, ts), Member(HEADER, header),
      Member(PAYLOAD, String(text));
    FourMembers(a, b, c, d, close);
    MemberText(PAYLOAD, String(text), close);
    PayloadText(text, close);
    assert [QUOTE] + close == [QUOTE, CLOSE_BRACE];
    var t4 := text + [QUOTE, CLOSE_BRACE];
    Glued([COMMA], Lead(PAYLOAD), [QUOTE] + t4);
    Glued([COMMA] + Lead(PAYLOAD), [QUOTE], t4);
    var t3 := ([COMMA] + Lead(PAYLOAD) + [QUOTE]) + t4;
    assert [COMMA] + MemberTo(d, close) == t3;
    MemberText(HEADER, header, t3);
    Glued([COMMA], Lead(HEADER), Dumps(header) + t3);
    var t2 := ([COMMA] + Lead(HEADER)) + (Dumps(header) + t3);
    MemberText(TS_NS, ts, t2);
    Glued([COMMA], Lead(TS_NS), Dumps(ts) + t2);
    var t1 := ([COMMA] + Lead(TS_NS)) + (Dumps(ts) + t2);
    MemberText(CHANNEL, channel, t1);
    Glued([OPEN_BRACE], Lead(CHANNEL), Dumps(channel) + t1);
  }

  /** A key in quotes and its colon. */
  function Lead(key: Str): Str { [QUOTE] + key + [QUOTE, COLON] }

  /** The number four letters stand for, six bits each, the first one highest. */
  ghost function SextetsOf(s: Str): Option<nat>
    requires |s| == 4
  {
    var a, b, c, d := Base64.Sextet(s[0]), Base64.Sextet(s[1]), Base64.Sextet(s[2]), Base64.Sextet(s[3]);
    if a.None? || b.None? || c.None? || d.None? then None
    else Some(((a.value * 64 + b.value) * 64 + c.value) * 64 + d.value)
  }

  /** Three bytes and their four letters are one number of 24 bits. */
  lemma GroupIsNumber(a: Base64.Byte, b: Base64.Byte, c: Base64.Byte)
    ensures |Base64.Encode([a, b, c])| == 4 && SextetsOf(Base64.Encode([a, b, c])) == Some((a * 256 + b) * 256 + c)
  {
    assert [a, b, c][3..] == [];
    assert Base64.Encode([]) == [];
    var e := Base64.Encode([a, b, c]);
    Base64.LetterReads(a / 4);
    Base64.LetterReads(a % 4 * 16 + b / 16);
    Base64.LetterReads(b % 16 * 4 + c / 64);
    Base64.LetterReads(c % 64);
    assert e == [Base64.Letter(a / 4), Base64.Letter(a % 4 * 16 + b / 16), Base64.Letter(b % 16 * 4 + c / 64),
        Base64.Letter(c % 64)];
  }

  // ---------------------------------------------------------------- where lines end

  predicate Unbroken(line: Str) { forall i :: 0 <= i < |line| ==> line[i] != 0x0a && line[i] != 0x0d }

  /** A line feed, a carriage return, or the two together end a line; nothing else does. */
  lemma LinesEnd(line: Str, end: Str, rest: Str)
    requires Unbroken(line)
    requires end == [0x0a] || end == [0x0d, 0x0a] || (end == [0x0d] && (rest == [] || rest[0] != 0x0a))
    ensures Lines(line + (end + rest)) == [line] + Lines(rest)
    ensures Lines(line) == if line == [] then [] else [line]
  {
    var text := line + (end + rest);
    assert forall i :: 0 <= i < |line| ==> text[i] == line[i];
    BreakAtFirst(text, |line|);
    assert text[..|line|] == line && text[|line| + |end|..] == rest;
    assert BreakAt(line) == |line|;
  }

  // ---------------------------------------------------------------- which lines are looked at

  predicate AllSpace(s: Str) { forall i :: 0 <= i < |s| ==> Space(s[i]) }

  lemma {:induction false} StripLeftSkips(front: Str, core: Str)
    requires AllSpace(front) && (core == [] || !Space(core[0]))
    ensures StripLeft(front + core) == core
  {
    if front == [] {
      assert front + core == core;
    } else {
      assert (front + core)[1..] == front[1..] + core;
      StripLeftSkips(front[1..], core);
    }
  }

  lemma {:induction false} StripRightSkips(core: Str, back: Str)
    requires AllSpace(back) && (core == [] || !Space(core[|core| - 1]))
    ensures StripRight(core + back) == core
  {
    if back == [] {
      assert core + back == core;
    } else {
      var n := |back| - 1;
      assert (core + back)[..|core + back| - 1] == core + back[..n];
      StripRightSkips(core, back[..n]);
    }
  }

  /** Stripping takes off all white space in front and behind and no more. */
  lemma Stripped(front: Str, core: Str, back: Str)
    requires AllSpace(front) && AllSpace(back)
    requires core == [] || (!Space(core[0]) && !Space(core[|core| - 1]))
    ensures Strip(front + core + back) == core
  {
    if core == [] {
      assert front + core + back == (front + back) + [];
      StripLeftSkips(front + back, []);
    } else {
      assert front + core + back == front + (core + back);
      StripLeftSkips(front, core + back);
      StripRightSkips(core, back);
    }
  }

  /** White space and a number sign, or white space alone: such lines are passed over, and no others unread. */
  lemma {:induction false} PassedOverUnread(line: Str)
    ensures Uninteresting(line) <==>
      exists k :: 0 <= k <= |line| && AllSpace(line[..k]) && (k == |line| || line[k] == 0x23)
    decreases |line|
  {
    var k := Leading(line);
    assert line == line[..k] + line[k..];
    StripLeftSkips(line[..k], line[k..]);
    if k < |line| {
      StripRightKeepsHead(line[k..]);
      forall j | 0 <= j <= |line| && AllSpace(line[..j]) && (j == |line| || line[j] == 0x23) ensures j == k {
        LeadingIs(line, j);
      }
    }
  }

  /** How many white space characters the line starts with. */
  function Leading(line: Str): (k: nat)
    ensures k <= |line| && AllSpace(line[..k]) && (k < |line| ==> !Space(line[k]))
  {
    if line == [] || !Space(line[0]) then 0
    else
      var k := Leading(line[1..]);
      assert line[..k + 1] == [line[0]] + line[1..][..k];
      1 + k
  }

  lemma {:induction false} LeadingIs(line: Str, k: nat)
    requires k <= |line| && AllSpace(line[..k]) && (k < |line| ==> !Space(line[k]))
    ensures k == Leading(line)
  {
    if k > 0 {
      assert line[..k][0] == line[0];
      assert line[..k][1..] == line[1..][..k - 1];
      LeadingIs(line[1..], k - 1);
    }
  }

  lemma {:induction false} StripRightKeepsHead(s: Str)
    requires s != [] && !Space(s[0])
    ensures StripRight(s) != [] && StripRight(s)[0] == s[0]
  {
    if Space(s[|s| - 1]) {
      StripRightKeepsHead(s[..|s| - 1]);
    }
  }

  // ---------------------------------------------------------------- which lines are records

  lemma {:induction false} SetItemAssigns(d: seq<Member>, m: Member)
    requires DistinctKeys(d)
    ensures DistinctKeys(SetItem(d, m))
    ensures forall x :: x in SetItem(d, m) <==> x == m || (x in d && x.key != m.key)
  {
    if d != [] {
      assert d == [d[0]] + d[1..];
      assert forall x :: x in d[1..] ==> x.key != d[0].key;
      if d[0].key != m.key {
        SetItemAssigns(d[1..], m);
        DistinctCons(d[0], SetItem(d[1..], m));
      } else {
        DistinctCons(m, d[1..]);
      }
    }
  }

  lemma DistinctCons(m: Member, rest: seq<Member>)
    requires DistinctKeys(rest) && forall x :: x in rest ==> x.key != m.key
    ensures DistinctKeys([m] + rest)
  {
    var all := [m] + rest;
    assert forall i :: 0 < i < |all| ==> all[i] == rest[i - 1] && all[i] in rest;
  }

  /** No member further on has the key of member `i`. */
  ghost predicate LastOfKey(members: seq<Member>, i: nat)
    requires i < |members|
  {
    forall j :: i < j < |members| ==> members[j].key != members[i].key
  }

  /** An object read with a key given twice has it once, with the value given last. */
  lemma {:induction false} LastValueWins(members: seq<Member>)
    ensures DistinctKeys(Merged(members))
    ensures forall m :: m in Merged(members) <==>
      exists i :: 0 <= i < |members| && members[i] == m && LastOfKey(members, i)
  {
    if members != [] {
      var n := |members| - 1;
      var front, last := members[..n], members[n];
      LastValueWins(front);
      SetItemAssigns(Merged(front), last);
      forall m ensures m in Merged(members) <==>
        exists i :: 0 <= i < |members| && members[i] == m && LastOfKey(members, i)
      {
        if m == last {
          assert members[n] == m && LastOfKey(members, n);
        } else {
          LastInFront(front, last, m);
          assert members == front + [last];
        }
      }
    }
  }

  lemma LastInFront(front: seq<Member>, last: Member, m: Member)
    requires m != last
    ensures (exists i :: 0 <= i < |front + [last]| && (front + [last])[i] == m && LastOfKey(front + [last], i)) <==>
      m.key != last.key && exists i :: 0 <= i < |front| && front[i] == m && LastOfKey(front, i)
  {
    var all := front + [last];
    assert all[|front|] == last && forall i :: 0 <= i < |front| ==> all[i] == front[i];
    if i :| 0 <= i < |all| && all[i] == m && LastOfKey(all, i) {
      assert LastOfKey(front, i);
    }
    if m.key != last.key {
      if i :| 0 <= i < |front| && front[i] == m && LastOfKey(front, i) {
        assert LastOfKey(all, i);
      }
    }
  }

  lemma {:induction false} LookupIsMember(d: seq<Member>, key: Str, v: Json)
    requires DistinctKeys(d)
    ensures Lookup(d, key) == Some(v) <==> Member(key, v) in d
    ensures Lookup(d, key).None? <==> forall m :: m in d ==> m.key != key
  {
    if d != [] {
      assert d == [d[0]] + d[1..];
      LookupIsMember(d[1..], key, v);
      assert forall m :: m in d[1..] ==> m.key != d[0].key;
    }
  }

  ghost predicate Has(d: seq<Member>, key: string, v: Json) { Member(Codes(key), v) in d }

  /** int() of the value is this number. */
  ghost predicate Counts(v: Json, py: PyInt, i: int) {
    || v == Int(i)
    || (v.Bool? && i == (if v.b then 1 else 0))
    || (v.Float? && py.ofFloat(v.text) == Whole(i))
    || (v.String? && py.ofText(v.s) == Whole(i))
  }

  /** int() of the value raises a TypeError or an OverflowError. */
  ghost predicate Uncountable(v: Json, py: PyInt) {
    || v.Null? || v.Array? || v.Object?
    || (v.Float? && py.ofFloat(v.text).OverflowError?)
    || (v.String? && py.ofText(v.s).OverflowError?)
  }

  /**
   A decoded object is a record exactly when it has all four keys, a ts_ns that counts and a payload that is base64;
   and it ends the reading exactly when it has a channel and either a ts_ns int() cannot take, or one that counts, a
   header and a payload that is no string.  In every other case it is skipped.
  */
  lemma DictIsRecord(d: seq<Member>, py: PyInt, r: Record)
    requires DistinctKeys(d)
    ensures FromDict(d, py) == Read(r) <==>
      && Has(d, "channel", r.channel) && Has(d, "header", r.header)
      && (exists ts :: Has(d, "ts_ns", ts) && Counts(ts, py, r.tsNs))
      && (exists s :: Has(d, "payload", String(s)) && Base64.Decode(s) == Some(r.payload))
  {
    KeyNames();
    Found(d, Codes("channel"));
    Found(d, Codes("header"));
    Found(d, Codes("ts_ns"));
    Found(d, Codes("payload"));
    if FromDict(d, py) == Read(r) {
      assert Has(d, "ts_ns", Lookup(d, TS_NS).value);
      assert Has(d, "payload", String(Lookup(d, PAYLOAD).value.s));
    }
  }

  /** What a key has, if anything, is found. */
  lemma Found(d: seq<Member>, key: Str)
    requires DistinctKeys(d)
    ensures forall v :: Member(key, v) in d <==> Lookup(d, key) == Some(v)
  {
    forall v ensures Member(key, v) in d <==> Lookup(d, key) == Some(v) {
      LookupIsMember(d, key, v);
    }
  }

  lemma DictEndsReading(d: seq<Member>, py: PyInt)
    requires DistinctKeys(d)
    ensures FromDict(d, py) == Raised <==>
      && (exists c :: Has(d, "channel", c))
      && ((exists ts :: Has(d, "ts_ns", ts) && Uncountable(ts, py)) || BadPayload(d, py))
  {
    KeyNames();
    Found(d, Codes("channel"));
    Found(d, Codes("header"));
    Found(d, Codes("ts_ns"));
    Found(d, Codes("payload"));
    if FromDict(d, py) == Raised {
      var ts := Lookup(d, TS_NS).value;
      assert Has(d, "channel", Lookup(d, CHANNEL).value) && Has(d, "ts_ns", ts);
      if !Uncountable(ts, py) {
        assert Counts(ts, py, AsInt(ts, py).value.i);
        assert Has(d, "header", Lookup(d, HEADER).value) && Has(d, "payload", Lookup(d, PAYLOAD).value);
      }
    }
  }

  ghost predicate BadPayload(d: seq<Member>, py: PyInt) {
    && (exists ts, i :: Has(d, "ts_ns", ts) && Counts(ts, py, i))
    && (exists h :: Has(d, "header", h))
    && (exists v :: Has(d, "payload", v) && !v.String?)
  }

  // ---------------------------------------------------------------- a file in two parts

  /** Reading goes on line by line, and an error it does not catch ends it with the records so far. */
  lemma {:induction false} ReadsInOrder(a: seq<Str>, b: seq<Str>, py: PyInt)
    ensures ReadLines(a + b, py) ==
      if ReadLines(a, py).end == ByError then ReadLines(a, py)
      else Contents(ReadLines(a, py).records + ReadLines(b, py).records, ReadLines(b, py).end)
  {
    if a == [] {
      assert a + b == b;
      assert [] + ReadLines(b, py).records == ReadLines(b, py).records;
    } else {
      assert (a + b)[1..] == a[1..] + b;
      ReadsInOrder(a[1..], b, py);
      if !Uninteresting(a[0]) && FromLine(Strip(a[0]), py).Read? {
        Glued3(FromLine(Strip(a[0]), py).r, ReadLines(a[1..], py).records, ReadLines(b, py).records);
      }
    }
  }

  lemma Glued3(r: Record, a: seq<Record>, b: seq<Record>)
    ensures [r] + (a + b) == ([r] + a) + b
  {
  }

  /** A line alone. */
  lemma OneLine(line: Str, py: PyInt)
    ensures ReadLines([line], py) ==
      if Uninteresting(line) then Contents([], AtEnd)
      else match FromLine(Strip(line), py)
        case Read(r) => Contents([r], AtEnd)
        case Skipped => Contents([], AtEnd)
        case Raised => Contents([], ByError)
  {
    assert [line][1..] == [];
    assert ReadLines([], py) == Contents([], AtEnd);
  }
}
