/**
 The replay recording file (python/services/replay/store.py): one JSON line a record, read back with blank lines,
 comment lines and malformed records passed over.  A file is its decoded text.
*/
module Replay {
  import opened Messages
  import opened PyJson
  import Base64
  import DecodedJson

  /** A reader takes whatever JSON value stands for the channel and the header. */
  datatype Record = Record(channel: Json, tsNs: int, header: Json, payload: seq<Base64.Byte>)

  const CHANNEL: Str := [0x63, 0x68, 0x61, 0x6e, 0x6e, 0x65, 0x6c]
  const TS_NS: Str := [0x74, 0x73, 0x5f, 0x6e, 0x73]
  const HEADER: Str := [0x68, 0x65, 0x61, 0x64, 0x65, 0x72]
  const PAYLOAD: Str := [0x70, 0x61, 0x79, 0x6c, 0x6f, 0x61, 0x64]
  const HASH: Code := 0x23
  const NEWLINE: Code := 0x0a
  const RETURN: Code := 0x0d

  // ---------------------------------------------------------------- writing

  function MembersUnder(channel: Str, ts: Str, header: Str, payload: Str, r: Record): seq<Member> {
    [Member(channel, r.channel), Member(ts, Int(r.tsNs)), Member(header, r.header),
     Member(payload, String(Base64.Encode(r.payload)))]
  }

  function MembersOf(r: Record): seq<Member> { MembersUnder(CHANNEL, TS_NS, HEADER, PAYLOAD, r) }

  function ToLine(r: Record): Str { Dumps(Json.Object(MembersOf(r))) }

  ghost predicate Writable(r: Record) { Storable(r.channel) && Storable(r.header) }

  // ---------------------------------------------------------------- reading one line

  /** What Python's int() makes of a float or a string. */
  datatype Conversion = Whole(i: int) | ValueError | OverflowError

  datatype PyInt = PyInt(ofFloat: Str -> Conversion, ofText: Str -> Conversion)

  /** A record; a ValueError or KeyError, which read_all passes over; or another error, which ends the reading. */
  datatype Reading = Read(r: Record) | Skipped | Raised

  function Lookup(d: seq<Member>, key: Str): Option<Json> {
    if d == [] then None else if d[0].key == key then Some(d[0].value) else Lookup(d[1..], key)
  }

  function FromLine(line: Str, py: PyInt): Reading {
    var v := Loads(line);
    if v.None? then Skipped
    else if !v.value.Object? then Raised
    else FromDict(v.value.members, py)
  }

  /** int(value); None for a TypeError. */
  function AsInt(v: Json, py: PyInt): Option<Conversion> {
    match v
    case Int(i) => Some(Whole(i))
    case Bool(b) => Some(Whole(if b then 1 else 0))
    case Float(text) => Some(py.ofFloat(text))
    case String(s) => Some(py.ofText(s))
    case _ => None
  }

  function FromDict(d: seq<Member>, py: PyInt): Reading {
    var channel := Lookup(d, CHANNEL);
    var ts := Lookup(d, TS_NS);
    if channel.None? || ts.None? then Skipped
    else
      var converted := AsInt(ts.value, py);
      if converted.None? || converted.value.OverflowError? then Raised
      else if converted.value.ValueError? then Skipped
      else
        var header := Lookup(d, HEADER);
        var payload := Lookup(d, PAYLOAD);
        if header.None? || payload.None? then Skipped
        else if !payload.value.String? then Raised
        else
          var bytes := Base64.Decode(payload.value.s);
          if bytes.None? then Skipped else Read(Record(channel.value, converted.value.i, header.value, bytes.value))
  }

  // ---------------------------------------------------------------- reading a file

  predicate LineBreak(c: Code) { c == NEWLINE || c == RETURN }

  function BreakAt(text: Str): (n: nat)
    ensures n <= |text|
    ensures n < |text| ==> LineBreak(text[n])
    ensures forall i :: 0 <= i < n ==> !LineBreak(text[i])
  {
    if text == [] || LineBreak(text[0]) then 0 else 1 + BreakAt(text[1..])
  }

  /** The lines of a text, with universal newlines. */
  function Lines(text: Str): seq<Str>
    decreases |text|
  {
    if text == [] then []
    else
      var n := BreakAt(text);
      if n == |text| then [text]
      else if text[n] == RETURN && n + 1 < |text| && text[n + 1] == NEWLINE then [text[..n]] + Lines(text[n + 2..])
      else [text[..n]] + Lines(text[n + 1..])
  }

  /** What str.strip takes off. */
  predicate Space(c: Code) {
    || 0x09 <= c <= 0x0d || 0x1c <= c <= 0x20 || c == 0x85 || c == 0xa0 || c == 0x1680 || 0x2000 <= c <= 0x200a
    || c == 0x2028 || c == 0x2029 || c == 0x202f || c == 0x205f || c == 0x3000
  }

  function StripLeft(s: Str): (r: Str)
    ensures |r| <= |s|
  {
    if s != [] && Space(s[0]) then StripLeft(s[1..]) else s
  }

  function StripRight(s: Str): Str {
    if s != [] && Space(s[|s| - 1]) then StripRight(s[..|s| - 1]) else s
  }

  function Strip(s: Str): Str { StripRight(StripLeft(s)) }

  /** How reading a file ends: at its end, or by an error that read_all does not catch. */
  datatype End = AtEnd | ByError

  datatype Contents = Contents(records: seq<Record>, end: End)

  predicate Uninteresting(line: Str) { Strip(line) == [] || Strip(line)[0] == HASH }

  function ReadLines(lines: seq<Str>, py: PyInt): Contents {
    if lines == [] then Contents([], AtEnd)
    else if Uninteresting(lines[0]) then ReadLines(lines[1..], py)
    else
      match FromLine(Strip(lines[0]), py)
      case Skipped => ReadLines(lines[1..], py)
      case Raised => Contents([], ByError)
      case Read(r) => var rest := ReadLines(lines[1..], py); Contents([r] + rest.records, rest.end)
  }

  method ReadAll(text: Str, py: PyInt) returns (contents: Contents)
    ensures contents == ReadLines(Lines(text), py)
  {
    var lines := Lines(text);
    var records: seq<Record> := [];
    for n := 0 to |lines|
      invariant ReadLines(lines, py) ==
          Contents(records + ReadLines(lines[n..], py).records, ReadLines(lines[n..], py).end)
    {
      assert lines[n..][0] == lines[n] && lines[n..][1..] == lines[n + 1..];
      var line := Strip(lines[n]);
      if line == [] || line[0] == HASH {
        continue;
      }
      var reading := FromLine(line, py);
      match reading {
        case Read(r) =>
          ghost var rest := ReadLines(lines[n + 1..], py).records;
          assert records + ([r] + rest) == (records + [r]) + rest;
          records := records + [r];
        case Skipped =>
        case Raised =>
          assert records + [] == records;
          return Contents(records, ByError);
      }
    }
    assert lines[|lines|..] == [] && records + [] == records;
    return Contents(records, AtEnd);
  }

  // ---------------------------------------------------------------- the round trip of a record

  /** What comes back for a record. */
  function ReloadedRecord(r: Record): Record { r.(channel := Reloaded(r.channel), header := Reloaded(r.header)) }

  predicate Survives(r: Record) { PairFree(r.channel) && PairFree(r.header) }

  lemma SurvivorsUnchanged(r: Record)
    requires Writable(r)
    ensures ReloadedRecord(r) == r <==> Survives(r)
  {
    ReloadedUnchanged(r.channel);
    ReloadedUnchanged(r.header);
  }

  predicate IsAscii(s: Str) { forall i :: 0 <= i < |s| ==> s[i] < 128 }

  lemma AsciiUnpaired(s: Str)
    requires IsAscii(s)
    ensures Joined(s) == s
  {
    JoinedUnpaired(s);
  }

  lemma FourReloaded(a: Member, b: Member, c: Member, d: Member)
    ensures ReloadedMembers([a, b, c, d]) ==
        [ReloadedMember(a), ReloadedMember(b), ReloadedMember(c), ReloadedMember(d)]
    ensures StorableMembers([a, b, c, d]) <==>
        Storable(a.value) && Storable(b.value) && Storable(c.value) && Storable(d.value)
  {
    assert [a, b, c, d][1..] == [b, c, d] && [b, c, d][1..] == [c, d] && [c, d][1..] == [d] && [d][1..] == [];
    assert ReloadedMembers([d]) == [ReloadedMember(d)];
    assert ReloadedMembers([c, d]) == [ReloadedMember(c), ReloadedMember(d)];
    assert ReloadedMembers([b, c, d]) == [ReloadedMember(b), ReloadedMember(c), ReloadedMember(d)];
    assert StorableMembers([d]) <==> Storable(d.value);
    assert StorableMembers([c, d]) <==> Storable(c.value) && Storable(d.value);
  }

  lemma ReloadedUnder(channel: Str, ts: Str, header: Str, payload: Str, r: Record)
    requires IsAscii(channel) && IsAscii(ts) && IsAscii(header) && IsAscii(payload)
    ensures ReloadedMembers(MembersUnder(channel, ts, header, payload, r)) ==
        MembersUnder(channel, ts, header, payload, ReloadedRecord(r))
  {
    var encoded := Base64.Encode(r.payload);
    Base64.EncodeIsAscii(r.payload);
    AsciiUnpaired(encoded);
    AsciiUnpaired(channel);
    AsciiUnpaired(ts);
    AsciiUnpaired(header);
    AsciiUnpaired(payload);
    FourReloaded(Member(channel, r.channel), Member(ts, Int(r.tsNs)), Member(header, r.header),
      Member(payload, String(encoded)));
  }

  lemma StorableUnder(channel: Str, ts: Str, header: Str, payload: Str, r: Record)
    requires Writable(r)
    requires channel != ts && channel != header && channel != payload && ts != header && ts != payload &&
        header != payload
    ensures Storable(Json.Object(MembersUnder(channel, ts, header, payload, r)))
    ensures DistinctKeys(MembersUnder(channel, ts, header, payload, r))
  {
    FourReloaded(Member(channel, r.channel), Member(ts, Int(r.tsNs)), Member(header, r.header),
                 Member(payload, String(Base64.Encode(r.payload))));
  }

  lemma MembersReloaded(r: Record)
    ensures ReloadedMembers(MembersOf(r)) == MembersOf(ReloadedRecord(r))
  {
    ReloadedUnder(CHANNEL, TS_NS, HEADER, PAYLOAD, r);
  }

  lemma KeysDiffer()
    ensures CHANNEL != TS_NS && CHANNEL != HEADER && CHANNEL != PAYLOAD && TS_NS != HEADER && TS_NS != PAYLOAD &&
        HEADER != PAYLOAD
  {
    assert |CHANNEL| == 7 && |TS_NS| == 5 && |HEADER| == 6 && |PAYLOAD| == 7;
    assert CHANNEL[0] != PAYLOAD[0];
  }

  lemma DictStorable(r: Record)
    requires Writable(r)
    ensures Storable(Json.Object(MembersOf(r)))
    ensures DistinctKeys(MembersOf(r))
  {
    KeysDiffer();
    StorableUnder(CHANNEL, TS_NS, HEADER, PAYLOAD, r);
  }

  /** A dict with the four keys in the order they are written. */
  lemma DictReads(r: Record, py: PyInt)
    ensures FromDict(MembersOf(r), py) == Read(r)
  {
    KeysDiffer();
    Base64.RoundTrip(r.payload);
    var d := MembersOf(r);
    assert d[1..][0] == d[1] && d[1..][1..] == d[2..] && d[2..][0] == d[2] && d[2..][1..] == d[3..] &&
        d[3..][0] == d[3];
    assert Lookup(d, CHANNEL) == Some(r.channel);
    assert Lookup(d, TS_NS) == Lookup(d[1..], TS_NS) == Some(Int(r.tsNs));
    assert Lookup(d, HEADER) == Lookup(d[1..], HEADER) == Lookup(d[2..], HEADER) == Some(r.header);
    assert Lookup(d, PAYLOAD) == Lookup(d[1..], PAYLOAD) == Lookup(d[2..], PAYLOAD) == Lookup(d[3..], PAYLOAD) ==
        Some(d[3].value);
  }

  lemma KeysDistinct(channel: Str, ts: Str, header: Str, payload: Str, r: Record)
    requires channel != ts && channel != header && channel != payload && ts != header && ts != payload &&
        header != payload
    ensures DistinctKeys(MembersUnder(channel, ts, header, payload, r))
  {
  }

  lemma DictReloaded(r: Record)
    requires Writable(r)
    ensures Reloaded(Json.Object(MembersOf(r))) == Json.Object(MembersOf(ReloadedRecord(r)))
  {
    MembersReloaded(r);
    KeysDiffer();
    KeysDistinct(CHANNEL, TS_NS, HEADER, PAYLOAD, ReloadedRecord(r));
    MergedIs(MembersOf(ReloadedRecord(r)));
  }

  lemma LineReads(r: Record, py: PyInt)
    requires Writable(r)
    ensures FromLine(ToLine(r), py) == Read(ReloadedRecord(r))
  {
    DictStorable(r);
    LoadsDumps(Json.Object(MembersOf(r)));
    DictReloaded(r);
    DictReads(ReloadedRecord(r), py);
  }

  /** A record comes back from its line exactly when no string in it has a surrogate pair. */
  lemma RecordRoundTrip(r: Record, py: PyInt)
    requires Writable(r)
    ensures FromLine(ToLine(r), py) == Read(r) <==> Survives(r)
  {
    LineReads(r, py);
    SurvivorsUnchanged(r);
  }

  // ---------------------------------------------------------------- the round trip of a file

  /** One line of printable ASCII from `{` to `}`. */
  lemma LineShape(r: Record)
    requires Writable(r)
    ensures var t := ToLine(r); |t| >= 2 && t[0] == OPEN_BRACE && t[|t| - 1] == CLOSE_BRACE
    ensures forall i :: 0 <= i < |ToLine(r)| ==> Printable(ToLine(r)[i])
  {
    var ms := MembersOf(r);
    DictStorable(r);
    ValuePrints(Json.Object(ms), []);
    var close := [CLOSE_BRACE] + [];
    MembersPrint(ms, close);
    var inner := MembersTo(ms, close);
    assert inner[|inner| - 1] == inner[|inner| - 1..][0];
    assert ToLine(r) == [OPEN_BRACE] + inner;
  }

  /** What a recording consists of: records, and lines that somebody put between them. */
  datatype Item = Entry(r: Record) | Note(line: Str)

  /** A blank line, a comment or a malformed record. */
  predicate PassedOver(line: Str, py: PyInt) {
    && (forall i :: 0 <= i < |line| ==> !LineBreak(line[i]))
    && (Uninteresting(line) || FromLine(Strip(line), py) == Skipped)
  }

  ghost predicate Fits(item: Item, py: PyInt) { if item.Entry? then Writable(item.r) else PassedOver(item.line, py) }

  ghost predicate Sound(items: seq<Item>, py: PyInt) {
    forall i :: 0 <= i < |items| ==> Fits(items[i], py)
  }

  function ItemLine(item: Item): Str { if item.Entry? then ToLine(item.r) else item.line }

  function FileText(items: seq<Item>): Str {
    if items == [] then [] else ItemLine(items[0]) + ([NEWLINE] + FileText(items[1..]))
  }

  function Records(items: seq<Item>): seq<Record> {
    if items == [] then []
    else (if items[0].Entry? then [items[0].r] else []) + Records(items[1..])
  }

  function ReloadedRecords(records: seq<Record>): (rs: seq<Record>)
    ensures |rs| == |records|
  {
    seq(|records|, i requires 0 <= i < |records| => ReloadedRecord(records[i]))
  }

  lemma {:induction false} BreakAtFirst(text: Str, k: nat)
    requires k < |text| && LineBreak(text[k]) && forall i :: 0 <= i < k ==> !LineBreak(text[i])
    ensures BreakAt(text) == k
  {
    if k > 0 {
      BreakAtFirst(text[1..], k - 1);
    }
  }

  lemma LineSplit(line: Str, rest: Str)
    requires forall i :: 0 <= i < |line| ==> !LineBreak(line[i])
    ensures Lines(line + ([NEWLINE] + rest)) == [line] + Lines(rest)
  {
    var text := line + ([NEWLINE] + rest);
    assert forall i :: 0 <= i < |line| ==> text[i] == line[i];
    BreakAtFirst(text, |line|);
    assert text[..|line|] == line && text[|line| + 1..] == rest;
  }

  lemma StripKeeps(s: Str)
    requires s != [] && !Space(s[0]) && !Space(s[|s| - 1])
    ensures Strip(s) == s
  {
  }

  /** One more line in front: a record is read, anything else is passed over. */
  lemma ItemReads(item: Item, lines: seq<Str>, py: PyInt)
    requires Fits(item, py)
    ensures var rest := ReadLines(lines, py);
      ReadLines([ItemLine(item)] + lines, py) ==
        if item.Entry? then Contents([ReloadedRecord(item.r)] + rest.records, rest.end) else rest
  {
    assert ([ItemLine(item)] + lines)[1..] == lines;
    if item.Entry? {
      LineShape(item.r);
      StripKeeps(ItemLine(item));
      LineReads(item.r, py);
    }
  }

  lemma ItemUnbroken(item: Item, py: PyInt)
    requires Fits(item, py)
    ensures forall i :: 0 <= i < |ItemLine(item)| ==> !LineBreak(ItemLine(item)[i])
  {
    if item.Entry? {
      LineShape(item.r);
    }
  }

  lemma ReloadedCons(r: Record, records: seq<Record>)
    ensures ReloadedRecords([r] + records) == [ReloadedRecord(r)] + ReloadedRecords(records)
  {
  }

  lemma {:induction false} FileReads(items: seq<Item>, py: PyInt)
    requires Sound(items, py)
    ensures ReadLines(Lines(FileText(items)), py) == Contents(ReloadedRecords(Records(items)), AtEnd)
    decreases |items|
  {
    if items == [] {
      assert ReloadedRecords([]) == [];
    } else {
      var rest := FileText(items[1..]);
      ItemUnbroken(items[0], py);
      LineSplit(ItemLine(items[0]), rest);
      ItemReads(items[0], Lines(rest), py);
      FileReads(items[1..], py);
      if items[0].Entry? {
        ReloadedCons(items[0].r, Records(items[1..]));
      } else {
        assert Records(items) == Records(items[1..]);
      }
    }
  }

  lemma {:induction false} RecordsWritable(items: seq<Item>, py: PyInt, i: nat)
    requires Sound(items, py) && i < |Records(items)|
    ensures Writable(Records(items)[i])
  {
    var more := Records(items[1..]);
    if items[0].Entry? {
      if i > 0 {
        RecordsWritable(items[1..], py, i - 1);
        assert Records(items)[i] == more[i - 1];
      }
    } else {
      RecordsWritable(items[1..], py, i);
      assert Records(items)[i] == more[i];
    }
  }

  /**
   Writing any records and reading them back, with blank lines, comments and malformed lines anywhere, yields the
   records exactly when no string in any of them has a surrogate pair.
  */
  lemma FileRoundTrip(items: seq<Item>, py: PyInt)
    requires Sound(items, py)
    ensures ReadLines(Lines(FileText(items)), py) == Contents(Records(items), AtEnd)
       <==> forall i :: 0 <= i < |Records(items)| ==> Survives(Records(items)[i])
  {
    FileReads(items, py);
    var rs := Records(items);
    forall i | 0 <= i < |rs|
      ensures ReloadedRecord(rs[i]) == rs[i] <==> Survives(rs[i])
    {
      RecordsWritable(items, py, i);
      SurvivorsUnchanged(rs[i]);
    }
    assert ReloadedRecords(rs) == rs <==> forall i :: 0 <= i < |rs| ==> ReloadedRecord(rs[i]) == rs[i] by {
      assert forall i :: 0 <= i < |rs| ==> ReloadedRecords(rs)[i] == ReloadedRecord(rs[i]);
    }
  }

  // ---------------------------------------------------------------- what the recorder writes

  /**
   A record as the recorder makes it (python/services/replay/main.py): a channel name without surrogate pairs, and
   as header whatever json.loads gave for a text decoded from UTF-8, its floats given by repr.
  */
  ghost predicate Recorded(r: Record, repr: Str -> Str) {
    && r.channel.String? && Unpaired(r.channel.s)
    && exists header: Str :: DecodedAs(header, r.header, repr)
  }

  ghost predicate DecodedAs(header: Str, v: Json, repr: Str -> Str) {
    DecodedJson.SurrogateFree(header) && Loads(header).Some? && v == DecodedJson.WithRepr(Loads(header).value, repr)
  }

  lemma RecordedSurvives(r: Record, repr: Str -> Str)
    requires Recorded(r, repr) && DecodedJson.ReprOfFloats(repr)
    ensures Writable(r) && Survives(r)
  {
    var header: Str :| DecodedAs(header, r.header, repr);
    DecodedJson.LoadsClean(header);
    DecodedJson.WithReprClean(Loads(header).value, repr);
  }

  /**
   Every file of the recorder reads back as exactly the records written, with blank lines, comments and malformed
   lines put anywhere in it.
  */
  lemma RecorderRoundTrip(items: seq<Item>, repr: Str -> Str, py: PyInt)
    requires DecodedJson.ReprOfFloats(repr)
    requires forall i :: 0 <= i < |items| ==>
      if items[i].Entry? then Recorded(items[i].r, repr) else PassedOver(items[i].line, py)
    ensures ReadLines(Lines(FileText(items)), py) == Contents(Records(items), AtEnd)
  {
    forall i | 0 <= i < |items| ensures Fits(items[i], py) && (items[i].Entry? ==> Survives(items[i].r)) {
      if items[i].Entry? {
        RecordedSurvives(items[i].r, repr);
      }
    }
    forall k | 0 <= k < |Records(items)| ensures Survives(Records(items)[k]) {
      RecordsSurvive(items, k);
    }
    FileRoundTrip(items, py);
  }

  lemma {:induction false} RecordsSurvive(items: seq<Item>, k: nat)
    requires k < |Records(items)| && forall i :: 0 <= i < |items| && items[i].Entry? ==> Survives(items[i].r)
    ensures Survives(Records(items)[k])
  {
    var more := Records(items[1..]);
    if items[0].Entry? {
      if k > 0 {
        RecordsSurvive(items[1..], k - 1);
        assert Records(items)[k] == more[k - 1];
      }
    } else {
      RecordsSurvive(items[1..], k);
      assert Records(items)[k] == more[k];
    }
  }

  /** A channel named by two surrogates in a row, which only a configuration can give, and which does not come back. */
  const PAIRED := Record(String([0xd83d, 0xde00]), 0, Json.Object([]), [])

  lemma PairedChannelIsLost(py: PyInt)
    ensures FromLine(ToLine(PAIRED), py) == Read(PAIRED.(channel := String([0x1f600])))
    ensures FromLine(ToLine(PAIRED), py) != Read(PAIRED)
  {
    var name: Str := [0xd83d, 0xde00];
    assert High(name[0]) && Low(name[1]) && name[2..] == [];
    assert Joined(name) == [Join(name[0], name[1])] + Joined(name[2..]) == [0x1f600];
    assert ReloadedMembers([]) == [] && Merged([]) == [];
    LineReads(PAIRED, py);
  }

  // ---------------------------------------------------------------- the file being written

  lemma Regroup(a: Str, b: Str, c: Str, d: Str)
    ensures a + (b + (c + d)) == (a + (b + c)) + d
  {
  }

  lemma {:induction false} FileTextMore(items: seq<Item>, item: Item)
    ensures FileText(items + [item]) == FileText(items) + (ItemLine(item) + [NEWLINE])
  {
    if items == [] {
      assert FileText([item]) == ItemLine(item) + ([NEWLINE] + []);
      assert [] + [item] == [item];
    } else {
      FileTextMore(items[1..], item);
      assert (items + [item])[1..] == items[1..] + [item];
      Regroup(ItemLine(items[0]), [NEWLINE], FileText(items[1..]), ItemLine(item) + [NEWLINE]);
    }
  }

  class Recording {
    var text: Str
    ghost var items: seq<Item>
    ghost const py: PyInt   // the reader's

    ghost predicate Valid()
      reads this
    {
      text == FileText(items) && Sound(items, py)
    }

    constructor (ghost py: PyInt)
      ensures Valid() && items == [] && this.py == py
    {
      this.py := py;
      text, items := [], [];
    }

    method Write(r: Record)
      requires Valid() && Writable(r)
      modifies this
      ensures Valid() && items == old(items) + [Entry(r)]
      ensures ReadLines(Lines(text), py) == Contents(ReloadedRecords(Records(items)), AtEnd)
    {
      FileTextMore(items, Entry(r));
      items := items + [Entry(r)];
      text := text + ToLine(r);
      text := text + [NEWLINE];
      FileReads(items, py);
    }
  }
}
