/**
 What json.loads makes of a header that arrived as UTF-8 (python/services/replay/main.py): a value that json.dumps
 writes and json.loads gives back unchanged, since a text without surrogates never yields half of a pair next to
 the other half.
*/
module DecodedJson {
  import opened Messages
  import opened PyJson

  /** Text decoded from UTF-8 contains no surrogates. */
  predicate SurrogateFree(s: Str) { forall i :: 0 <= i < |s| ==> !High(s[i]) && !Low(s[i]) }

  /** A value json.dumps writes and json.loads gives back unchanged. */
  ghost predicate Clean(v: Json) { Storable(v) && PairFree(v) }

  ghost predicate CleanMembers(members: seq<Member>) { StorableMembers(members) && PairFreeMembers(members) }

  /** What an escape reads: never half of a pair whose other half follows. */
  lemma EscapeClean(s: Str)
    requires SurrogateFree(s) && s != [] && s[0] == BACKSLASH && ParseEscape(s).Some?
    ensures var e := ParseEscape(s).value;
      && SurrogateFree(e.rest) && (Low(e.value) ==> LowAhead(s)) && (High(e.value) ==> !LowAhead(e.rest))
  {
  }

  /** A string that json.loads reads has no surrogate pair. */
  lemma {:induction false} StringClean(s: Str)
    requires SurrogateFree(s) && ParseString(s).Some?
    ensures var p := ParseString(s).value;
      Unpaired(p.value) && SurrogateFree(p.rest) && (p.value != [] && Low(p.value[0]) ==> LowAhead(s))
    decreases |s|
  {
    if s[0] == QUOTE {
    } else if s[0] == BACKSLASH {
      var e := ParseEscape(s).value;
      EscapeClean(s);
      StringClean(e.rest);
      PrependUnpaired(e.value, ParseString(e.rest).value.value);
    } else {
      StringClean(s[1..]);
      PrependUnpaired(s[0], ParseString(s[1..]).value.value);
    }
  }

  lemma PrependUnpaired(c: Code, s: Str)
    requires Unpaired(s) && !(s != [] && High(c) && Low(s[0]))
    ensures Unpaired([c] + s)
  {
    var t := [c] + s;
    assert forall i :: 0 < i < |t| ==> t[i] == s[i - 1];
  }

  lemma {:induction false} DigitsConsume(s: Str, acc: nat) returns (ds: Str)
    ensures AllDigits(ds) && s == ds + ParseDigits(s, acc).rest
    ensures DigitAhead(s) ==> ds != []
    decreases |s|
  {
    if DigitAhead(s) {
      var more := DigitsConsume(s[1..], acc * 10 + (s[0] - 0x30));
      ds := [s[0]] + more;
      assert s == [s[0]] + s[1..];
    } else {
      ds := [];
    }
  }

  lemma WholeConsumes(s: Str) returns (w: Str)
    requires DigitAhead(s)
    ensures Whole(w) && s == w + ParseMagnitude(s).rest
  {
    if s[0] == 0x30 {
      w := [0x30];
    } else {
      var ds := DigitsConsume(s[1..], s[0] - 0x30);
      w := [s[0]] + ds;
      assert s == [s[0]] + s[1..];
    }
  }

  lemma FractionConsumes(s: Str) returns (f: Str)
    ensures Fraction(f) && s == f + AfterFraction(s)
  {
    f := [];
    if s != [] && s[0] == DOT && DigitAhead(s[1..]) {
      var ds := DigitsConsume(s[1..], 0);
      f := [DOT] + ds;
      assert f[1..] == ds && s == [s[0]] + s[1..];
    }
  }

  lemma ExponentIs(c: Code, sign: Str, ds: Str)
    requires (c == 0x65 || c == 0x45) && AllDigits(ds) && ds != []
    requires sign == [] || sign == [MINUS] || sign == [0x2b]
    ensures Exponent([c] + (sign + ds))
  {
    var e := [c] + (sign + ds);
    if sign == [] {
      assert sign + ds == ds;
      assert e[1..] == ds && e[1] == ds[0];
    } else {
      assert e[2..] == ds && e[1] == sign[0];
    }
  }

  lemma ExponentConsumes(s: Str) returns (e: Str)
    ensures Exponent(e) && s == e + AfterExponent(s)
  {
    e := [];
    if s != [] && (s[0] == 0x65 || s[0] == 0x45) {
      var sign := if Signed(s) then [s[1]] else [];
      var t := if Signed(s) then s[2..] else s[1..];
      assert s == [s[0]] + (sign + t);
      if DigitAhead(t) {
        var ds := DigitsConsume(t, 0);
        ExponentIs(s[0], sign, ds);
        e := [s[0]] + (sign + ds);
        Behind(s[0], sign, ds, ParseDigits(t, 0).rest);
      }
    }
  }

  lemma Behind(c: Code, sign: Str, ds: Str, rest: Str)
    ensures [c] + (sign + (ds + rest)) == ([c] + (sign + ds)) + rest
  {
  }

  /** The parts of a number that is read. */
  lemma NumberParts(sign: Str, t: Str) returns (whole: Str, fraction: Str, exponent: Str)
    requires DigitAhead(t)
    ensures var m := ParseMagnitude(t).rest;
      var rest := AfterExponent(AfterFraction(m));
      && Whole(whole) && Fraction(fraction) && Exponent(exponent)
      && t == whole + m && m == fraction + (exponent + rest)
      && sign + t == (sign + (whole + (fraction + exponent))) + rest
  {
    whole := WholeConsumes(t);
    var m := ParseMagnitude(t).rest;
    fraction := FractionConsumes(m);
    exponent := ExponentConsumes(AfterFraction(m));
    Regroup(sign, whole, fraction, exponent, AfterExponent(AfterFraction(m)));
  }

  /** A float that is read has a text that denotes it. */
  lemma NumberClean(s: Str)
    requires SurrogateFree(s) && ParseNumber(s).Some?
    ensures Clean(ParseNumber(s).value.value) && SurrogateFree(ParseNumber(s).value.rest)
  {
    var sign := if s[0] == MINUS then [MINUS] else [];
    var t := if s[0] == MINUS then s[1..] else s;
    assert s == sign + t;
    var m := ParseMagnitude(t).rest;
    var rest := AfterExponent(AfterFraction(m));
    var whole, fraction, exponent := NumberParts(sign, t);
    SignPassed(sign, t);
    if rest != m {
      SuffixSurrogateFree(sign + (whole + (fraction + exponent)), rest);
      TakeAll(sign + (whole + (fraction + exponent)), rest);
      PartsLeft(fraction, exponent, rest, m);
      assert FloatParts(sign, whole, fraction, exponent);
    } else {
      SuffixSurrogateFree(sign, whole + m);
      SuffixSurrogateFree(whole, m);
    }
  }

  lemma PartsLeft(fraction: Str, exponent: Str, rest: Str, m: Str)
    requires m == fraction + (exponent + rest) && rest != m
    ensures fraction != [] || exponent != []
  {
  }

  lemma SuffixSurrogateFree(a: Str, b: Str)
    requires SurrogateFree(a + b)
    ensures SurrogateFree(b)
  {
    assert forall i :: 0 <= i < |b| ==> b[i] == (a + b)[|a| + i];
  }

  lemma WordClean(s: Str)
    requires SurrogateFree(s) && ParseWord(s).Some?
    ensures Clean(ParseWord(s).value.value) && SurrogateFree(ParseWord(s).value.rest)
  {
  }

  lemma {:induction false} SpaceClean(s: Str)
    requires SurrogateFree(s)
    ensures SurrogateFree(SkipSpace(s))
  {
    if SkipSpace(s) != s {
      SpaceClean(s[1..]);
    }
  }

  lemma {:induction false} SetItemClean(d: seq<Member>, m: Member)
    requires CleanMembers(d) && DistinctKeys(d) && Unpaired(m.key) && Clean(m.value)
    ensures CleanMembers(SetItem(d, m)) && DistinctKeys(SetItem(d, m))
    ensures forall k: Str :: HasKey(SetItem(d, m), k) <==> HasKey(d, k) || k == m.key
  {
    if d == [] {
      assert CleanMembers([m]) by { assert [m][1..] == []; }
      assert [m][0].key == m.key;
    } else {
      assert d == [d[0]] + d[1..];
      HasKeyCons(d[0], d[1..]);
      if d[0].key == m.key {
        assert ([m] + d[1..])[1..] == d[1..];
        HasKeyCons(m, d[1..]);
        DistinctCons(m, d[1..]);
      } else {
        SetItemClean(d[1..], m);
        var rest := SetItem(d[1..], m);
        assert ([d[0]] + rest)[1..] == rest;
        HasKeyCons(d[0], rest);
        assert !HasKey(d[1..], d[0].key);
        DistinctCons(d[0], rest);
      }
    }
  }

  lemma HasKeyCons(m: Member, d: seq<Member>)
    ensures forall k: Str :: HasKey([m] + d, k) <==> k == m.key || HasKey(d, k)
  {
    var c := [m] + d;
    assert c[0] == m && forall i :: 0 < i < |c| ==> c[i] == d[i - 1];
    forall k: Str | HasKey(d, k) ensures HasKey(c, k) {
      var i :| 0 <= i < |d| && d[i].key == k;
      assert c[i + 1].key == k;
    }
  }

  lemma DistinctCons(m: Member, d: seq<Member>)
    requires DistinctKeys(d) && !HasKey(d, m.key)
    ensures DistinctKeys([m] + d)
  {
    var c := [m] + d;
    assert forall i :: 0 < i < |c| ==> c[i] == d[i - 1];
  }

  lemma {:induction false} MergedClean(members: seq<Member>)
    requires CleanMembers(members)
    ensures CleanMembers(Merged(members)) && DistinctKeys(Merged(members))
    decreases |members|
  {
    if members != [] {
      var n := |members| - 1;
      CleanInit(members);
      MergedClean(members[..n]);
      SetItemClean(Merged(members[..n]), members[n]);
    }
  }

  lemma {:induction false} CleanInit(members: seq<Member>)
    requires members != [] && CleanMembers(members)
    ensures CleanMembers(members[..|members| - 1])
    ensures Unpaired(members[|members| - 1].key) && Clean(members[|members| - 1].value)
    decreases |members|
  {
    if |members| > 1 {
      CleanInit(members[1..]);
      assert members[..|members| - 1][1..] == members[1..][..|members| - 2];
    }
  }

  /** json.loads of a text without surrogates yields only values that json.dumps and json.loads give back. */
  lemma {:induction false} ValueClean(s: Str)
    requires SurrogateFree(s) && ParseValue(s).Some?
    ensures Clean(ParseValue(s).value.value) && SurrogateFree(ParseValue(s).value.rest)
    decreases |s|, 0
  {
    if s[0] == QUOTE {
      StringClean(s[1..]);
    } else if s[0] == OPEN_BRACE {
      var t := SkipSpace(s[1..]);
      SpaceClean(s[1..]);
      if !(t != [] && t[0] == CLOSE_BRACE) {
        MembersClean(t);
        MergedClean(ParseMembers(t).value.value);
      }
    } else if s[0] == OPEN_BRACKET {
      var t := SkipSpace(s[1..]);
      SpaceClean(s[1..]);
      if !(t != [] && t[0] == CLOSE_BRACKET) {
        ItemsClean(t);
      }
    } else if ParseWord(s).Some? {
      WordClean(s);
    } else {
      NumberClean(s);
    }
  }

  lemma {:induction false} ItemsClean(s: Str)
    requires SurrogateFree(s) && ParseItems(s).Some?
    ensures StorableItems(ParseItems(s).value.value) && PairFreeItems(ParseItems(s).value.value)
    ensures SurrogateFree(ParseItems(s).value.rest)
    decreases |s|, 1
  {
    ValueClean(s);
    var v := ParseValue(s).value;
    var t := SkipSpace(v.rest);
    SpaceClean(v.rest);
    if t[0] == CLOSE_BRACKET {
      assert [v.value][1..] == [];
    } else {
      SpaceClean(t[1..]);
      ItemsClean(SkipSpace(t[1..]));
      var more := ParseItems(SkipSpace(t[1..])).value.value;
      assert ([v.value] + more)[1..] == more;
    }
  }

  lemma {:induction false} MemberClean(s: Str)
    requires SurrogateFree(s) && ParseMember(s).Some?
    ensures Unpaired(ParseMember(s).value.value.key) && Clean(ParseMember(s).value.value.value)
    ensures SurrogateFree(ParseMember(s).value.rest)
    decreases |s|, 1
  {
    StringClean(s[1..]);
    var k := ParseString(s[1..]).value;
    var t := SkipSpace(k.rest);
    SpaceClean(k.rest);
    SpaceClean(t[1..]);
    ValueClean(SkipSpace(t[1..]));
  }

  lemma {:induction false} MembersClean(s: Str)
    requires SurrogateFree(s) && ParseMembers(s).Some?
    ensures CleanMembers(ParseMembers(s).value.value) && SurrogateFree(ParseMembers(s).value.rest)
    decreases |s|, 2
  {
    MemberClean(s);
    var m := ParseMember(s).value;
    var t := SkipSpace(m.rest);
    SpaceClean(m.rest);
    if t[0] == CLOSE_BRACE {
      assert [m.value][1..] == [];
    } else {
      SpaceClean(t[1..]);
      MembersClean(SkipSpace(t[1..]));
      var more := ParseMembers(SkipSpace(t[1..])).value.value;
      assert ([m.value] + more)[1..] == more;
    }
  }

  lemma LoadsClean(s: Str)
    requires SurrogateFree(s) && Loads(s).Some?
    ensures Clean(Loads(s).value)
  {
    SpaceClean(s);
    ValueClean(SkipSpace(s));
  }

  // ---------------------------------------------------------------- floats as repr gives them

  /** The value with every float given by the text `repr` has for it. */
  ghost function WithRepr(v: Json, repr: Str -> Str): Json {
    match v
    case Float(text) => Float(repr(text))
    case Array(items) => Array(ItemsWithRepr(items, repr))
    case Object(members) => Json.Object(MembersWithRepr(members, repr))
    case _ => v
  }

  ghost function ItemsWithRepr(items: seq<Json>, repr: Str -> Str): seq<Json> {
    if items == [] then [] else [WithRepr(items[0], repr)] + ItemsWithRepr(items[1..], repr)
  }

  ghost function MembersWithRepr(members: seq<Member>, repr: Str -> Str): (r: seq<Member>)
    ensures |r| == |members| && forall i :: 0 <= i < |members| ==> r[i].key == members[i].key
  {
    if members == [] then []
    else [Member(members[0].key, WithRepr(members[0].value, repr))] + MembersWithRepr(members[1..], repr)
  }

  /** What repr gives for a float denotes a float. */
  ghost predicate ReprOfFloats(repr: Str -> Str) { forall t: Str :: FloatText(t) ==> FloatText(repr(t)) }

  lemma {:induction false} WithReprClean(v: Json, repr: Str -> Str)
    requires Clean(v) && ReprOfFloats(repr)
    ensures Clean(WithRepr(v, repr))
    decreases v
  {
    match v
    case Array(items) => ItemsWithReprClean(items, repr);
    case Object(members) => MembersWithReprClean(members, repr);
    case _ =>
  }

  lemma {:induction false} ItemsWithReprClean(items: seq<Json>, repr: Str -> Str)
    requires StorableItems(items) && PairFreeItems(items) && ReprOfFloats(repr)
    ensures StorableItems(ItemsWithRepr(items, repr)) && PairFreeItems(ItemsWithRepr(items, repr))
    decreases items
  {
    if items != [] {
      WithReprClean(items[0], repr);
      ItemsWithReprClean(items[1..], repr);
      assert ItemsWithRepr(items, repr)[1..] == ItemsWithRepr(items[1..], repr);
    }
  }

  lemma {:induction false} MembersWithReprClean(members: seq<Member>, repr: Str -> Str)
    requires CleanMembers(members) && ReprOfFloats(repr)
    ensures CleanMembers(MembersWithRepr(members, repr))
    decreases members
  {
    if members != [] {
      WithReprClean(members[0].value, repr);
      MembersWithReprClean(members[1..], repr);
      assert MembersWithRepr(members, repr)[1..] == MembersWithRepr(members[1..], repr);
    }
  }
}
