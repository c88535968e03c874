/**
 RGB/depth matcher of the sensor subscriber (python/lexaire/subscriber.py).

 Two bounded, insertion-ordered buffers feed an intersecting matcher.  Each critical section of the
 source (an insert followed by a trim, or one matching pass) is one event.  `Run` folds a whole list of
 events; the class at the end does the same work in place and stays equal to that fold.
*/
module Matcher {

  /** A header field as the matcher finds it: missing (or null), convertible, or of a bad type or value. */
  datatype Field<+T> = Absent | Good(value: T) | Malformed

  datatype Rgb = Rgb(tsNs: Field<int>, intrinsics: Field<nat>, pixels: nat)
  datatype Depth = Depth(scale: Field<real>, pixels: nat)

  datatype Frameset = Frameset(tsNs: int, key: int, rgb: nat, depth: nat, scale: real, intrinsics: nat)

  /** One dict item: the publisher's sequence number and what is stored under it. */
  datatype Slot<+T> = Slot(key: int, value: T)

  // ---------------------------------------------------------------- insertion-ordered dicts

  predicate HasKey<T>(buf: seq<Slot<T>>, key: int) {
    exists i :: 0 <= i < |buf| && buf[i].key == key
  }

  ghost function KeySet<T>(buf: seq<Slot<T>>): set<int> {
    set i | 0 <= i < |buf| :: buf[i].key
  }

  ghost predicate UniqueKeys<T>(buf: seq<Slot<T>>) {
    forall i, j :: 0 <= i < j < |buf| ==> buf[i].key != buf[j].key
  }

  /** `buf[key] = value`: an existing key keeps its position, a new one goes to the end. */
  function Put<T>(buf: seq<Slot<T>>, x: Slot<T>): (r: seq<Slot<T>>) {
    if buf == [] then [x]
    else if buf[0].key == x.key then [x] + buf[1..]
    else [buf[0]] + Put(buf[1..], x)
  }

  /** What `buf[key] = value` overwrites. */
  function Replaced<T>(buf: seq<Slot<T>>, key: int): seq<Slot<T>> {
    if buf == [] then []
    else if buf[0].key == key then [buf[0]]
    else Replaced(buf[1..], key)
  }

  function Position<T>(buf: seq<Slot<T>>, key: int): (i: nat)
    requires HasKey(buf, key)
    ensures i < |buf| && buf[i].key == key
    ensures forall j :: 0 <= j < i ==> buf[j].key != key
  {
    if buf[0].key == key then 0
    else
      assert HasKey(buf[1..], key) by {
        var i :| 0 <= i < |buf| && buf[i].key == key;
        assert buf[1..][i - 1].key == key;
      }
      1 + Position(buf[1..], key)
  }

  /** `buf.pop(key)`: the dict without that item. */
  function Pop<T>(buf: seq<Slot<T>>, key: int): (r: seq<Slot<T>>)
    requires HasKey(buf, key)
  {
    var i := Position(buf, key);
    buf[..i] + buf[i + 1..]
  }

  /** Assignment to a dict: the key's value is the new one, the others are as they were, and keys keep their places. */
  lemma {:induction false} PutAssigns<T>(buf: seq<Slot<T>>, x: Slot<T>)
    requires UniqueKeys(buf)
    ensures KeysOf(Put(buf, x)) == if HasKey(buf, x.key) then KeysOf(buf) else KeysOf(buf) + [x.key]
    ensures forall y :: y in Put(buf, x) <==> y == x || (y in buf && y.key != x.key)
  {
    if buf != [] {
      var first, rest := buf[0], buf[1..];
      assert buf == [first] + rest;
      UniqueCons(first, rest);
      if first.key == x.key {
        assert forall y :: y in rest ==> y.key in KeySet(rest);
        TailOfKeys(x, rest);
      } else {
        PutAssigns(rest, x);
        HasKeyCons(first, rest, x.key);
        TailOfKeys(first, Put(rest, x));
        SumOfSums([first.key], KeysOf(rest), [x.key]);
      }
    }
  }

  lemma TailOfKeys<T>(x: Slot<T>, rest: seq<Slot<T>>)
    ensures KeysOf([x] + rest) == [x.key] + KeysOf(rest)
  {
    assert ([x] + rest)[1..] == rest;
  }

  lemma HasKeyCons<T>(x: Slot<T>, rest: seq<Slot<T>>, key: int)
    ensures HasKey([x] + rest, key) <==> x.key == key || HasKey(rest, key)
  {
    KeySetCons(x, rest);
    HasKeyIsMember([x] + rest, key);
    HasKeyIsMember(rest, key);
  }

  lemma {:induction false} PutKeys<T>(buf: seq<Slot<T>>, x: Slot<T>)
    requires UniqueKeys(buf)
    ensures UniqueKeys(Put(buf, x))
    ensures KeySet(Put(buf, x)) == KeySet(buf) + {x.key}
  {
    KeySetCons(x, []);
    assert [x] + [] == [x];
    if buf != [] {
      assert buf == [buf[0]] + buf[1..];
      var rest := buf[1..];
      UniqueCons(buf[0], rest);
      KeySetCons(buf[0], rest);
      if buf[0].key == x.key {
        KeySetCons(x, rest);
        UniqueCons(x, rest);
      } else {
        PutKeys(rest, x);
        KeySetCons(buf[0], Put(rest, x));
        UniqueCons(buf[0], Put(rest, x));
      }
    }
  }

  /** A fresh key is appended and overwrites nothing. */
  lemma {:induction false} PutFresh<T>(buf: seq<Slot<T>>, x: Slot<T>)
    requires !HasKey(buf, x.key)
    ensures Put(buf, x) == buf + [x] && Replaced(buf, x.key) == []
  {
    if buf != [] {
      forall i | 0 <= i < |buf[1..]| ensures buf[1..][i].key != x.key {
        assert buf[1..][i] == buf[i + 1];
      }
      PutFresh(buf[1..], x);
    }
  }

  lemma Shift<T>(first: multiset<T>, put: multiset<T>, gone: multiset<T>, rest: multiset<T>, x: multiset<T>)
    requires put + gone == rest + x
    ensures (first + put) + gone == (first + rest) + x
  {
    assert (first + put) + gone == first + (put + gone);
  }

  /** An insert adds one item and drops the one it overwrites. */
  lemma {:induction false} PutCounts<T>(buf: seq<Slot<T>>, x: Slot<T>)
    ensures multiset(Put(buf, x)) + multiset(Replaced(buf, x.key)) == multiset(buf) + multiset{x}
  {
    if buf != [] {
      var rest := buf[1..];
      assert buf == [buf[0]] + rest;
      if buf[0].key != x.key {
        PutCounts(rest, x);
        Shift(multiset{buf[0]}, multiset(Put(rest, x)), multiset(Replaced(rest, x.key)), multiset(rest), multiset{x});
      }
    }
  }

  lemma UniqueCons<T>(x: Slot<T>, rest: seq<Slot<T>>)
    ensures UniqueKeys([x] + rest) <==> UniqueKeys(rest) && x.key !in KeySet(rest)
  {
    var all := [x] + rest;
    assert forall i :: 0 <= i < |rest| ==> all[i + 1] == rest[i];
    if UniqueKeys(all) {
      forall i | 0 <= i < |rest| ensures rest[i].key != x.key {
        assert all[0].key != all[i + 1].key;
      }
    }
  }

  lemma KeySetCons<T>(x: Slot<T>, rest: seq<Slot<T>>)
    ensures KeySet([x] + rest) == {x.key} + KeySet(rest)
  {
    var all := [x] + rest;
    assert forall i :: 0 <= i < |rest| ==> all[i + 1] == rest[i];
    assert all[0] == x;
    forall k | k in {x.key} + KeySet(rest) ensures k in KeySet(all) {
      if k != x.key {
        var i :| 0 <= i < |rest| && rest[i].key == k;
        assert all[i + 1].key == k;
      }
    }
  }

  lemma KeySetSplit<T>(a: seq<Slot<T>>, b: seq<Slot<T>>)
    ensures KeySet(a + b) == KeySet(a) + KeySet(b)
  {
    var all := a + b;
    forall k | k in KeySet(a) + KeySet(b) ensures k in KeySet(all) {
      if k in KeySet(a) {
        var i :| 0 <= i < |a| && a[i].key == k;
        assert all[i].key == k;
      } else {
        var i :| 0 <= i < |b| && b[i].key == k;
        assert all[|a| + i].key == k;
      }
    }
  }

  lemma PopCounts<T>(buf: seq<Slot<T>>, key: int)
    requires HasKey(buf, key)
    ensures multiset(buf) == multiset(Pop(buf, key)) + multiset{buf[Position(buf, key)]}
  {
    WithoutOne(buf, Position(buf, key));
  }

  lemma WithoutOne<T>(s: seq<T>, i: nat)
    requires i < |s|
    ensures multiset(s) == multiset(s[..i] + s[i + 1..]) + multiset{s[i]}
  {
    assert s == s[..i] + [s[i]] + s[i + 1..];
  }

  lemma PopFacts<T>(buf: seq<Slot<T>>, key: int)
    requires UniqueKeys(buf) && HasKey(buf, key)
    ensures UniqueKeys(Pop(buf, key))
    ensures KeySet(Pop(buf, key)) == KeySet(buf) - {key}
    ensures multiset(buf) == multiset(Pop(buf, key)) + multiset{buf[Position(buf, key)]}
  {
    PopCounts(buf, key);
    CutUnique(buf, Position(buf, key));
    CutKeys(buf, Position(buf, key));
  }

  lemma CutUnique<T>(buf: seq<Slot<T>>, i: nat)
    requires UniqueKeys(buf) && i < |buf|
    ensures UniqueKeys(buf[..i] + buf[i + 1..])
  {
    var r := buf[..i] + buf[i + 1..];
    assert forall j :: 0 <= j < |r| ==> r[j] == buf[if j < i then j else j + 1];
  }

  lemma CutKeys<T>(buf: seq<Slot<T>>, i: nat)
    requires UniqueKeys(buf) && i < |buf|
    ensures KeySet(buf[..i] + buf[i + 1..]) == KeySet(buf) - {buf[i].key}
  {
    var r := buf[..i] + buf[i + 1..];
    assert forall j :: 0 <= j < |r| ==> r[j] == buf[if j < i then j else j + 1];
    forall k | k in KeySet(buf) - {buf[i].key} ensures k in KeySet(r) {
      var j :| 0 <= j < |buf| && buf[j].key == k;
      assert r[if j < i then j else j - 1].key == k;
    }
  }

  /** `_trim_locked`: oldest insertions go first. */
  function Trimmed<T>(buf: seq<Slot<T>>, size: nat): seq<Slot<T>> {
    if |buf| > size then buf[|buf| - size..] else buf
  }

  function Evicted<T>(buf: seq<Slot<T>>, size: nat): seq<Slot<T>> {
    if |buf| > size then buf[..|buf| - size] else []
  }

  lemma TrimFacts<T>(buf: seq<Slot<T>>, size: nat)
    requires UniqueKeys(buf)
    ensures UniqueKeys(Trimmed(buf, size)) && |Trimmed(buf, size)| <= size
    ensures buf == Evicted(buf, size) + Trimmed(buf, size)
    ensures multiset(buf) == multiset(Evicted(buf, size)) + multiset(Trimmed(buf, size))
    ensures KeySet(buf) == KeySet(Evicted(buf, size)) + KeySet(Trimmed(buf, size))
  {
    assert buf == Evicted(buf, size) + Trimmed(buf, size);
    KeySetSplit(Evicted(buf, size), Trimmed(buf, size));
  }

  // ---------------------------------------------------------------- sorted common keys

  ghost predicate StrictlyIncreasing(s: seq<int>) {
    forall i, j :: 0 <= i < j < |s| ==> s[i] < s[j]
  }

  lemma HeadIsLeast(s: seq<int>)
    requires s != [] && StrictlyIncreasing(s)
    ensures StrictlyIncreasing(s[1..])
    ensures forall x :: x in s[1..] ==> s[0] < x
    ensures forall x :: x in s <==> x == s[0] || x in s[1..]
  {
    assert s == [s[0]] + s[1..];
  }

  lemma ConsIncreasing(x: int, rest: seq<int>)
    requires StrictlyIncreasing(rest) && forall y :: y in rest ==> x < y
    ensures StrictlyIncreasing([x] + rest)
    ensures forall y :: y in [x] + rest <==> y == x || y in rest
  {
    var r := [x] + rest;
    assert forall i :: 0 < i < |r| ==> r[i] == rest[i - 1] && r[i] in rest;
  }

  function InsertKey(s: seq<int>, k: int): (r: seq<int>)
    requires StrictlyIncreasing(s)
    ensures StrictlyIncreasing(r)
    ensures forall x :: x in r <==> x in s || x == k
  {
    if s == [] then [k]
    else if k < s[0] then
      HeadIsLeast(s);
      ConsIncreasing(k, s);
      [k] + s
    else if k == s[0] then s
    else
      HeadIsLeast(s);
      ConsIncreasing(s[0], InsertKey(s[1..], k));
      [s[0]] + InsertKey(s[1..], k)
  }

  /** `sorted(set(rgb.keys()) & set(depth.keys()))` */
  function Common(rgb: seq<Slot<Rgb>>, depth: seq<Slot<Depth>>): (keys: seq<int>)
    ensures StrictlyIncreasing(keys)
    ensures forall k :: k in keys <==> HasKey(rgb, k) && HasKey(depth, k)
  {
    if rgb == [] then []
    else
      var rest := Common(rgb[1..], depth);
      assert forall k :: HasKey(rgb, k) <==> k == rgb[0].key || HasKey(rgb[1..], k) by {
        forall k ensures HasKey(rgb, k) <==> k == rgb[0].key || HasKey(rgb[1..], k) {
          if HasKey(rgb[1..], k) {
            var i := Position(rgb[1..], k);
            assert rgb[i + 1].key == k;
          }
          if HasKey(rgb, k) && k != rgb[0].key {
            var i := Position(rgb, k);
            assert rgb[1..][i - 1].key == k;
          }
        }
      }
      if HasKey(depth, rgb[0].key) then InsertKey(rest, rgb[0].key) else rest
  }

  // ---------------------------------------------------------------- one matching pass

  predicate WellFormed(rgb: Rgb, depth: Depth) {
    rgb.tsNs.Good? && rgb.intrinsics.Good? && !depth.scale.Malformed?
  }

  /** The frameset of one matched pair, or nothing when a header is malformed.  A missing scale counts as 0. */
  function Joined(key: int, rgb: Rgb, depth: Depth): (out: seq<Frameset>)
    ensures |out| == if WellFormed(rgb, depth) then 1 else 0
    ensures out != [] ==> out[0].key == key && out[0].rgb == rgb.pixels && out[0].depth == depth.pixels
  {
    if !WellFormed(rgb, depth) then []
    else
      var scale := if depth.scale.Absent? then 0.0 else depth.scale.value;
      [Frameset(rgb.tsNs.value, key, rgb.pixels, depth.pixels, scale, rgb.intrinsics.value)]
  }

  ghost predicate AllPresent<T>(buf: seq<Slot<T>>, keys: seq<int>) {
    forall k :: k in keys ==> HasKey(buf, k)
  }

  ghost predicate Poppable<T>(buf: seq<Slot<T>>, keys: seq<int>) {
    UniqueKeys(buf) && StrictlyIncreasing(keys) && AllPresent(buf, keys)
  }

  lemma HasKeyIsMember<T>(buf: seq<Slot<T>>, k: int)
    ensures HasKey(buf, k) <==> k in KeySet(buf)
  {
  }

  lemma StillPoppable<T>(buf: seq<Slot<T>>, keys: seq<int>)
    requires Poppable(buf, keys) && keys != []
    ensures HasKey(buf, keys[0]) && Poppable(Pop(buf, keys[0]), keys[1..])
  {
    assert keys[0] in keys;
    PopFacts(buf, keys[0]);
    forall x | x in keys[1..] ensures HasKey(Pop(buf, keys[0]), x) {
      var i :| 0 <= i < |keys[1..]| && keys[1..][i] == x;
      assert keys[i + 1] == x && x in keys && keys[0] < keys[i + 1];
      HasKeyIsMember(buf, x);
      HasKeyIsMember(Pop(buf, keys[0]), x);
    }
  }

  /** One side of a pass: what is left in the buffer, and what was popped, in order. */
  ghost function Left<T>(buf: seq<Slot<T>>, keys: seq<int>): seq<Slot<T>>
    requires Poppable(buf, keys)
    decreases |keys|
  {
    if keys == [] then buf
    else
      StillPoppable(buf, keys);
      Left(Pop(buf, keys[0]), keys[1..])
  }

  ghost function Taken<T>(buf: seq<Slot<T>>, keys: seq<int>): seq<Slot<T>>
    requires Poppable(buf, keys)
    decreases |keys|
  {
    if keys == [] then []
    else
      StillPoppable(buf, keys);
      [buf[Position(buf, keys[0])]] + Taken(Pop(buf, keys[0]), keys[1..])
  }

  ghost function KeysOf<T>(buf: seq<Slot<T>>): seq<int> {
    if buf == [] then [] else [buf[0].key] + KeysOf(buf[1..])
  }

  ghost function Seqs(out: seq<Frameset>): seq<int> {
    if out == [] then [] else [out[0].key] + Seqs(out[1..])
  }

  lemma {:induction false} KeysOfAppend<T>(a: seq<Slot<T>>, b: seq<Slot<T>>)
    ensures KeysOf(a + b) == KeysOf(a) + KeysOf(b)
  {
    if a == [] {
      assert a + b == b;
    } else {
      KeysOfAppend(a[1..], b);
      TailOfSum(a, b);
      SumOfSums([a[0].key], KeysOf(a[1..]), KeysOf(b));
    }
  }

  lemma {:induction false} SeqsAppend(a: seq<Frameset>, b: seq<Frameset>)
    ensures Seqs(a + b) == Seqs(a) + Seqs(b)
  {
    if a == [] {
      assert a + b == b;
    } else {
      SeqsAppend(a[1..], b);
      TailOfSum(a, b);
      SumOfSums([a[0].key], Seqs(a[1..]), Seqs(b));
    }
  }

  lemma {:induction false} KeySetIsKeys<T>(buf: seq<Slot<T>>)
    ensures |KeysOf(buf)| == |buf|
    ensures KeySet(buf) == set q | q in KeysOf(buf)
  {
    if buf != [] {
      KeySetIsKeys(buf[1..]);
      KeySetCons(buf[0], buf[1..]);
      assert buf == [buf[0]] + buf[1..];
    }
  }

  /** A pass takes exactly the given keys, in that order, and leaves the rest. */
  lemma {:induction false} PopAllKeys<T>(buf: seq<Slot<T>>, keys: seq<int>)
    requires Poppable(buf, keys)
    ensures UniqueKeys(Left(buf, keys))
    ensures KeysOf(Taken(buf, keys)) == keys
    ensures KeySet(Left(buf, keys)) == KeySet(buf) - (set q | q in keys)
    decreases |keys|
  {
    if keys != [] {
      StillPoppable(buf, keys);
      PopFacts(buf, keys[0]);
      PopAllKeys(Pop(buf, keys[0]), keys[1..]);
      assert keys == [keys[0]] + keys[1..];
    }
  }

  lemma {:induction false} PopAllCounts<T>(buf: seq<Slot<T>>, keys: seq<int>)
    requires Poppable(buf, keys)
    ensures multiset(buf) == multiset(Left(buf, keys)) + multiset(Taken(buf, keys))
    ensures |Left(buf, keys)| <= |buf|
    decreases |keys|
  {
    if keys != [] {
      StillPoppable(buf, keys);
      PopFacts(buf, keys[0]);
      PopAllCounts(Pop(buf, keys[0]), keys[1..]);
    }
  }

  /** The framesets a list of popped pairs produces. */
  ghost function JoinAll(rgb: seq<Slot<Rgb>>, depth: seq<Slot<Depth>>): seq<Frameset>
    requires |rgb| == |depth|
  {
    if rgb == [] then []
    else Joined(rgb[0].key, rgb[0].value, depth[0].value) + JoinAll(rgb[1..], depth[1..])
  }

  lemma TailOfSum<T>(a: seq<T>, b: seq<T>)
    requires a != []
    ensures (a + b)[0] == a[0] && (a + b)[1..] == a[1..] + b
  {
  }

  lemma SumOfSums<T>(a: seq<T>, b: seq<T>, c: seq<T>)
    ensures a + (b + c) == (a + b) + c
  {
  }

  lemma {:induction false} JoinAllAppend(r1: seq<Slot<Rgb>>, d1: seq<Slot<Depth>>, r2: seq<Slot<Rgb>>,
        d2: seq<Slot<Depth>>)
    requires |r1| == |d1| && |r2| == |d2|
    ensures JoinAll(r1 + r2, d1 + d2) == JoinAll(r1, d1) + JoinAll(r2, d2)
  {
    if r1 == [] {
      assert r1 + r2 == r2 && d1 + d2 == d2;
    } else {
      JoinAllAppend(r1[1..], d1[1..], r2, d2);
      TailOfSum(r1, r2);
      TailOfSum(d1, d2);
      SumOfSums(Joined(r1[0].key, r1[0].value, d1[0].value), JoinAll(r1[1..], d1[1..]), JoinAll(r2, d2));
    }
  }

  /** The matching loop has still to do `keys`; with that done it will have done all of `common`. */
  ghost predicate Remaining(rgb: seq<Slot<Rgb>>, depth: seq<Slot<Depth>>, keys: seq<int>, out: seq<Frameset>,
                            rgb0: seq<Slot<Rgb>>, depth0: seq<Slot<Depth>>, common: seq<int>)
  {
    && Poppable(rgb, keys) && Poppable(depth, keys) && Poppable(rgb0, common) && Poppable(depth0, common)
    && Left(rgb, keys) == Left(rgb0, common) && Left(depth, keys) == Left(depth0, common)
    && |Taken(rgb, keys)| == |Taken(depth, keys)| && |Taken(rgb0, common)| == |Taken(depth0, common)|
    && out + JoinAll(Taken(rgb, keys), Taken(depth, keys)) == JoinAll(Taken(rgb0, common), Taken(depth0, common))
  }

  /** One iteration of the matching loop. */
  lemma OnePair(rgb: seq<Slot<Rgb>>, depth: seq<Slot<Depth>>, keys: seq<int>, out: seq<Frameset>,
                rgb0: seq<Slot<Rgb>>, depth0: seq<Slot<Depth>>, common: seq<int>)
    requires Remaining(rgb, depth, keys, out, rgb0, depth0, common) && keys != []
    ensures HasKey(rgb, keys[0]) && HasKey(depth, keys[0])
    ensures var joined := Joined(keys[0], rgb[Position(rgb, keys[0])].value, depth[Position(depth, keys[0])].value);
      Remaining(Pop(rgb, keys[0]), Pop(depth, keys[0]), keys[1..], out + joined, rgb0, depth0, common)
  {
    StillPoppable(rgb, keys);
    StillPoppable(depth, keys);
    var r, d := Taken(rgb, keys), Taken(depth, keys);
    assert r[1..] == Taken(Pop(rgb, keys[0]), keys[1..]);
    assert d[1..] == Taken(Pop(depth, keys[0]), keys[1..]);
    var joined := Joined(keys[0], r[0].value, d[0].value);
    SumOfSums(out, joined, JoinAll(r[1..], d[1..]));
  }

  // ---------------------------------------------------------------- whole runs

  datatype Event = RgbIn(rgb: Slot<Rgb>) | DepthIn(depth: Slot<Depth>) | MatchPass

  /** One buffer, and what became of everything that ever arrived on its stream. */
  datatype Side<+T> = Side(buf: seq<Slot<T>>, evicted: seq<Slot<T>>, replaced: seq<Slot<T>>, taken: seq<Slot<T>>)

  datatype State = State(rgb: Side<Rgb>, depth: Side<Depth>, emitted: seq<Frameset>)

  ghost function Arrive<T>(side: Side<T>, x: Slot<T>, size: nat): Side<T> {
    var put := Put(side.buf, x);
    Side(Trimmed(put, size), side.evicted + Evicted(put, size),
         side.replaced + Replaced(side.buf, x.key), side.taken)
  }

  ghost function Take<T>(side: Side<T>, keys: seq<int>): Side<T>
    requires Poppable(side.buf, keys)
  {
    Side(Left(side.buf, keys), side.evicted, side.replaced, side.taken + Taken(side.buf, keys))
  }

  ghost predicate WellKeyed(s: State) { UniqueKeys(s.rgb.buf) && UniqueKeys(s.depth.buf) }

  lemma TakenTogether(s: State, keys: seq<int>)
    requires WellKeyed(s) && Poppable(s.rgb.buf, keys) && Poppable(s.depth.buf, keys)
    ensures |Taken(s.rgb.buf, keys)| == |Taken(s.depth.buf, keys)| == |keys|
  {
    PopAllKeys(s.rgb.buf, keys);
    PopAllKeys(s.depth.buf, keys);
    KeySetIsKeys(Taken(s.rgb.buf, keys));
    KeySetIsKeys(Taken(s.depth.buf, keys));
  }

  ghost function Step(s: State, e: Event, size: nat): State
    requires WellKeyed(s)
  {
    match e
    case RgbIn(x) => s.(rgb := Arrive(s.rgb, x, size))
    case DepthIn(x) => s.(depth := Arrive(s.depth, x, size))
    case MatchPass =>
      var keys := Common(s.rgb.buf, s.depth.buf);
      TakenTogether(s, keys);
      State(Take(s.rgb, keys), Take(s.depth, keys),
            s.emitted + JoinAll(Taken(s.rgb.buf, keys), Taken(s.depth.buf, keys)))
  }

  lemma StepKeepsWellKeyed(s: State, e: Event, size: nat)
    requires WellKeyed(s)
    ensures WellKeyed(Step(s, e, size))
  {
    match e
    case RgbIn(x) => PutKeys(s.rgb.buf, x); TrimFacts(Put(s.rgb.buf, x), size);
    case DepthIn(x) => PutKeys(s.depth.buf, x); TrimFacts(Put(s.depth.buf, x), size);
    case MatchPass =>
      PopAllKeys(s.rgb.buf, Common(s.rgb.buf, s.depth.buf));
      PopAllKeys(s.depth.buf, Common(s.rgb.buf, s.depth.buf));
  }

  ghost function Run(events: seq<Event>, size: nat): (s: State)
    ensures WellKeyed(s)
  {
    if events == [] then State(Side([], [], [], []), Side([], [], [], []), [])
    else
      var n := |events| - 1;
      StepKeepsWellKeyed(Run(events[..n], size), events[n], size);
      Step(Run(events[..n], size), events[n], size)
  }

  lemma RunMore(events: seq<Event>, e: Event, size: nat)
    ensures Run(events + [e], size) == Step(Run(events, size), e, size)
  {
    assert (events + [e])[..|events|] == events;
  }

  ghost function RgbArrivals(events: seq<Event>): seq<Slot<Rgb>> {
    if events == [] then []
    else
      var n := |events| - 1;
      if events[n].RgbIn? then RgbArrivals(events[..n]) + [events[n].rgb] else RgbArrivals(events[..n])
  }

  ghost function DepthArrivals(events: seq<Event>): seq<Slot<Depth>> {
    if events == [] then []
    else
      var n := |events| - 1;
      if events[n].DepthIn? then DepthArrivals(events[..n]) + [events[n].depth] else DepthArrivals(events[..n])
  }

  // ---------------------------------------------------------------- conservation

  /** Each arrival is in exactly one place: buffered, evicted, overwritten by a repeated number, or taken. */
  ghost predicate Balanced<T>(side: Side<T>, arrivals: seq<Slot<T>>) {
    multiset(arrivals) ==
    multiset(side.buf) + multiset(side.evicted) + multiset(side.replaced) + multiset(side.taken)
  }

  lemma Regroup<T>(all: multiset<T>, buf: multiset<T>, evicted: multiset<T>, replaced: multiset<T>, taken: multiset<T>,
                   x: multiset<T>, put: multiset<T>, gone: multiset<T>, trimmed: multiset<T>, left: multiset<T>)
    requires all == buf + evicted + replaced + taken
    requires put + gone == buf + x
    requires put == trimmed + left
    ensures all + x == left + (evicted + trimmed) + (replaced + gone) + taken
  {
    forall y: T
      ensures (all + x)[y] == (left + (evicted + trimmed) + (replaced + gone) + taken)[y]
    {
      assert (put + gone)[y] == (buf + x)[y];
      assert put[y] == (trimmed + left)[y];
    }
  }

  lemma ArriveBalanced<T>(side: Side<T>, arrivals: seq<Slot<T>>, x: Slot<T>, size: nat)
    requires Balanced(side, arrivals) && UniqueKeys(side.buf)
    ensures Balanced(Arrive(side, x, size), arrivals + [x])
    ensures |Arrive(side, x, size).buf| <= size
  {
    var put := Put(side.buf, x);
    PutKeys(side.buf, x);
    PutCounts(side.buf, x);
    TrimFacts(put, size);
    var next := Arrive(side, x, size);
    Regroup(multiset(arrivals), multiset(side.buf), multiset(side.evicted), multiset(side.replaced),
            multiset(side.taken), multiset{x}, multiset(put), multiset(Replaced(side.buf, x.key)),
            multiset(Evicted(put, size)), multiset(next.buf));
    assert multiset(next.evicted) == multiset(side.evicted) + multiset(Evicted(put, size));
    assert multiset(next.replaced) == multiset(side.replaced) + multiset(Replaced(side.buf, x.key));
  }

  lemma TakeBalanced<T>(side: Side<T>, arrivals: seq<Slot<T>>, keys: seq<int>)
    requires Balanced(side, arrivals) && Poppable(side.buf, keys)
    ensures Balanced(Take(side, keys), arrivals)
  {
    PopAllCounts(side.buf, keys);
  }

  /** Both sides have been taken in one order of sequence numbers, and the output is what the pairs produce. */
  ghost predicate Paired(s: State) {
    && |s.rgb.taken| == |s.depth.taken|
    && KeysOf(s.rgb.taken) == KeysOf(s.depth.taken)
    && s.emitted == JoinAll(s.rgb.taken, s.depth.taken)
  }

  lemma PassPaired(s: State, size: nat)
    requires WellKeyed(s) && Paired(s)
    ensures Paired(Step(s, MatchPass, size))
  {
    var keys := Common(s.rgb.buf, s.depth.buf);
    TakenTogether(s, keys);
    PopAllKeys(s.rgb.buf, keys);
    PopAllKeys(s.depth.buf, keys);
    var r, d := Taken(s.rgb.buf, keys), Taken(s.depth.buf, keys);
    KeysOfAppend(s.rgb.taken, r);
    KeysOfAppend(s.depth.taken, d);
    JoinAllAppend(s.rgb.taken, s.depth.taken, r, d);
  }

  lemma PassConserves(s: State, size: nat, rgb: seq<Slot<Rgb>>, depth: seq<Slot<Depth>>)
    requires WellKeyed(s) && Balanced(s.rgb, rgb) && Balanced(s.depth, depth)
    ensures Balanced(Step(s, MatchPass, size).rgb, rgb) && |Step(s, MatchPass, size).rgb.buf| <= |s.rgb.buf|
    ensures Balanced(Step(s, MatchPass, size).depth, depth) && |Step(s, MatchPass, size).depth.buf| <= |s.depth.buf|
  {
    var keys := Common(s.rgb.buf, s.depth.buf);
    TakenTogether(s, keys);
    TakeBalanced(s.rgb, rgb, keys);
    TakeBalanced(s.depth, depth, keys);
    PopAllCounts(s.rgb.buf, keys);
    PopAllCounts(s.depth.buf, keys);
  }

  /**
   Conservation.  For every interleaving of arrivals and passes, and for repeated sequence numbers too,
   nothing is lost or duplicated on either side, the two taken lists pair up, and no buffer exceeds its size.
  */
  lemma {:induction false} Conservation(events: seq<Event>, size: nat)
    ensures Balanced(Run(events, size).rgb, RgbArrivals(events))
    ensures Balanced(Run(events, size).depth, DepthArrivals(events))
    ensures Paired(Run(events, size))
    ensures |Run(events, size).rgb.buf| <= size && |Run(events, size).depth.buf| <= size
  {
    if events != [] {
      var n := |events| - 1;
      Conservation(events[..n], size);
      var s := Run(events[..n], size);
      match events[n]
      case RgbIn(x) => ArriveBalanced(s.rgb, RgbArrivals(events[..n]), x, size);
      case DepthIn(x) => ArriveBalanced(s.depth, DepthArrivals(events[..n]), x, size);
      case MatchPass =>
        PassConserves(s, size, RgbArrivals(events[..n]), DepthArrivals(events[..n]));
        PassPaired(s, size);
    }
  }

  lemma FreshKey<T>(arrivals: seq<Slot<T>>, x: Slot<T>)
    requires UniqueKeys(arrivals + [x])
    ensures forall y :: y in arrivals ==> y.key != x.key
  {
    forall y | y in arrivals ensures y.key != x.key {
      var j :| 0 <= j < |arrivals| && arrivals[j] == y;
      assert (arrivals + [x])[j] == y && (arrivals + [x])[|arrivals|] == x;
    }
  }

  lemma ArriveReplacesNothing<T>(side: Side<T>, arrivals: seq<Slot<T>>, x: Slot<T>, size: nat)
    requires Balanced(side, arrivals) && UniqueKeys(arrivals + [x]) && side.replaced == []
    ensures Arrive(side, x, size).replaced == []
  {
    if !HasKey(side.buf, x.key) {
      PutFresh(side.buf, x);
    } else {
      var y := side.buf[Position(side.buf, x.key)];
      assert y in multiset(side.buf);
      assert y in multiset(arrivals);
      FreshKey(arrivals, x);
    }
  }

  lemma UniquePrefix<T>(a: seq<Slot<T>>, b: seq<Slot<T>>)
    requires a <= b && UniqueKeys(b)
    ensures UniqueKeys(a)
  {
    assert forall i :: 0 <= i < |a| ==> a[i] == b[i];
  }

  /** With sequence numbers unique on each stream nothing is ever overwritten. */
  lemma {:induction false} NothingReplaced(events: seq<Event>, size: nat)
    requires UniqueKeys(RgbArrivals(events)) && UniqueKeys(DepthArrivals(events))
    ensures Run(events, size).rgb.replaced == [] && Run(events, size).depth.replaced == []
  {
    if events != [] {
      var n := |events| - 1;
      var before := events[..n];
      UniquePrefix(RgbArrivals(before), RgbArrivals(events));
      UniquePrefix(DepthArrivals(before), DepthArrivals(events));
      NothingReplaced(before, size);
      Conservation(before, size);
      match events[n]
      case RgbIn(x) => ArriveReplacesNothing(Run(before, size).rgb, RgbArrivals(before), x, size);
      case DepthIn(x) => ArriveReplacesNothing(Run(before, size).depth, DepthArrivals(before), x, size);
      case MatchPass =>
    }
  }

  // ---------------------------------------------------------------- intersection

  /** Every sequence number that arrived is buffered, evicted or taken. */
  ghost predicate Accounted<T>(side: Side<T>, arrivals: seq<Slot<T>>) {
    KeySet(arrivals) == KeySet(side.buf) + KeySet(side.evicted) + KeySet(side.taken)
  }

  lemma ArriveAccounted<T>(side: Side<T>, arrivals: seq<Slot<T>>, x: Slot<T>, size: nat)
    requires Accounted(side, arrivals) && UniqueKeys(side.buf)
    ensures Accounted(Arrive(side, x, size), arrivals + [x])
  {
    var put := Put(side.buf, x);
    PutKeys(side.buf, x);
    TrimFacts(put, size);
    KeySetSplit(side.evicted, Evicted(put, size));
    KeySetSplit(arrivals, [x]);
    KeySetCons(x, []);
    assert [x] + [] == [x];
  }

  lemma TakeAccounted<T>(side: Side<T>, arrivals: seq<Slot<T>>, keys: seq<int>)
    requires Accounted(side, arrivals) && Poppable(side.buf, keys)
    requires forall k :: k in keys ==> k in KeySet(side.buf)
    ensures Accounted(Take(side, keys), arrivals)
  {
    PopAllKeys(side.buf, keys);
    KeySetSplit(side.taken, Taken(side.buf, keys));
    KeySetIsKeys(Taken(side.buf, keys));
  }

  lemma CommonIsIntersection(rgb: seq<Slot<Rgb>>, depth: seq<Slot<Depth>>)
    ensures (set q | q in Common(rgb, depth)) == KeySet(rgb) * KeySet(depth)
  {
    forall k ensures k in Common(rgb, depth) <==> k in KeySet(rgb) * KeySet(depth) {
      HasKeyIsMember(rgb, k);
      HasKeyIsMember(depth, k);
    }
  }

  lemma {:induction false} KeysAccountedFor(events: seq<Event>, size: nat)
    ensures Accounted(Run(events, size).rgb, RgbArrivals(events))
    ensures Accounted(Run(events, size).depth, DepthArrivals(events))
  {
    if events != [] {
      var n := |events| - 1;
      KeysAccountedFor(events[..n], size);
      var s := Run(events[..n], size);
      match events[n]
      case RgbIn(x) => ArriveAccounted(s.rgb, RgbArrivals(events[..n]), x, size);
      case DepthIn(x) => ArriveAccounted(s.depth, DepthArrivals(events[..n]), x, size);
      case MatchPass =>
        CommonIsIntersection(s.rgb.buf, s.depth.buf);
        TakeAccounted(s.rgb, RgbArrivals(events[..n]), Common(s.rgb.buf, s.depth.buf));
        TakeAccounted(s.depth, DepthArrivals(events[..n]), Common(s.rgb.buf, s.depth.buf));
    }
  }

  /** After a pass the two buffers share no sequence number. */
  lemma DisjointAfterPass(events: seq<Event>, size: nat)
    requires events != [] && events[|events| - 1].MatchPass?
    ensures KeySet(Run(events, size).rgb.buf) !! KeySet(Run(events, size).depth.buf)
  {
    var s := Run(events[..|events| - 1], size);
    PopAllKeys(s.rgb.buf, Common(s.rgb.buf, s.depth.buf));
    PopAllKeys(s.depth.buf, Common(s.rgb.buf, s.depth.buf));
    CommonIsIntersection(s.rgb.buf, s.depth.buf);
  }

  /** A timestamp and intrinsics that convert, and a depth scale that does or is not there. */
  predicate Usable(rgb: Rgb, depth: Depth) {
    rgb.tsNs.Good? && rgb.intrinsics.Good? && (depth.scale.Good? || depth.scale.Absent?)
  }

  /** A frameset that says what the two headers and images say; a missing depth scale reads as 0. */
  predicate MadeOf(f: Frameset, rgb: Slot<Rgb>, depth: Slot<Depth>) {
    && f.key == rgb.key == depth.key
    && rgb.value.tsNs == Good(f.tsNs) && rgb.value.intrinsics == Good(f.intrinsics)
    && f.rgb == rgb.value.pixels && f.depth == depth.value.pixels
    && (depth.value.scale == Good(f.scale) || (depth.value.scale == Absent && f.scale == 0.0))
  }

  /** One frameset for each usable pair, in order, and nothing else. */
  ghost predicate Makes(out: seq<Frameset>, rgb: seq<Slot<Rgb>>, depth: seq<Slot<Depth>>)
    requires |rgb| == |depth|
  {
    if rgb == [] then out == []
    else if Usable(rgb[0].value, depth[0].value) then
      out != [] && MadeOf(out[0], rgb[0], depth[0]) && Makes(out[1..], rgb[1..], depth[1..])
    else Makes(out, rgb[1..], depth[1..])
  }

  lemma {:induction false} JoinAllMakes(rgb: seq<Slot<Rgb>>, depth: seq<Slot<Depth>>)
    requires |rgb| == |depth| && KeysOf(rgb) == KeysOf(depth)
    ensures Makes(JoinAll(rgb, depth), rgb, depth)
  {
    if rgb != [] {
      assert KeysOf(rgb)[0] == KeysOf(depth)[0] && KeysOf(rgb)[1..] == KeysOf(depth)[1..];
      JoinAllMakes(rgb[1..], depth[1..]);
      var rest := JoinAll(rgb[1..], depth[1..]);
      var first := Joined(rgb[0].key, rgb[0].value, depth[0].value);
      if Usable(rgb[0].value, depth[0].value) {
        assert (first + rest)[1..] == rest;
      } else {
        assert first + rest == rest;
      }
    }
  }

  /**
   Over every run: the framesets ever emitted are, in order, one for each matched pair with usable headers, each
   with that pair's sequence number, timestamp, intrinsics, scale and images.
  */
  lemma EmittedIsMade(events: seq<Event>, size: nat)
    ensures var s := Run(events, size);
      |s.rgb.taken| == |s.depth.taken| && Makes(s.emitted, s.rgb.taken, s.depth.taken)
  {
    Conservation(events, size);
    JoinAllMakes(Run(events, size).rgb.taken, Run(events, size).depth.taken);
  }

  ghost predicate AllWellFormed(rgb: seq<Slot<Rgb>>, depth: seq<Slot<Depth>>)
    requires |rgb| == |depth|
  {
    forall i :: 0 <= i < |rgb| ==> Usable(rgb[i].value, depth[i].value)
  }

  lemma {:induction false} WellFormedAllEmitted(rgb: seq<Slot<Rgb>>, depth: seq<Slot<Depth>>)
    requires |rgb| == |depth| && AllWellFormed(rgb, depth)
    ensures Seqs(JoinAll(rgb, depth)) == KeysOf(rgb)
  {
    if rgb != [] {
      WellFormedAllEmitted(rgb[1..], depth[1..]);
      SeqsAppend(Joined(rgb[0].key, rgb[0].value, depth[0].value), JoinAll(rgb[1..], depth[1..]));
    }
  }

  /**
   Refinement.  While nothing has been evicted, right after a pass the taken sequence numbers are exactly
   those that arrived on both streams; with well-formed headers they are exactly the emitted ones.
  */
  lemma PassTakesTheIntersection(events: seq<Event>, size: nat)
    requires events != [] && events[|events| - 1].MatchPass?
    requires Run(events, size).rgb.evicted == [] && Run(events, size).depth.evicted == []
    ensures var s := Run(events, size);
      && KeySet(s.rgb.taken) == KeySet(RgbArrivals(events)) * KeySet(DepthArrivals(events))
      && |s.rgb.taken| == |s.depth.taken|
      && (AllWellFormed(s.rgb.taken, s.depth.taken) ==>
            (set q | q in Seqs(s.emitted)) == KeySet(RgbArrivals(events)) * KeySet(DepthArrivals(events)))
  {
    var s := Run(events, size);
    KeysAccountedFor(events, size);
    DisjointAfterPass(events, size);
    Conservation(events, size);
    KeySetIsKeys(s.rgb.taken);
    KeySetIsKeys(s.depth.taken);
    assert KeySet(s.rgb.evicted) == {} && KeySet(s.depth.evicted) == {};
    if AllWellFormed(s.rgb.taken, s.depth.taken) {
      WellFormedAllEmitted(s.rgb.taken, s.depth.taken);
    }
  }

  // ---------------------------------------------------------------- oldest first

  /** The items are some of the arrivals, in the order in which they arrived. */
  ghost predicate AsArrived<T>(items: seq<Slot<T>>, arrivals: seq<Slot<T>>) {
    && (forall i :: 0 <= i < |items| ==> items[i] in arrivals)
    && forall i, j :: 0 <= i < j < |items| ==> Earlier(items[i], items[j], arrivals)
  }

  ghost predicate Earlier<T>(x: Slot<T>, y: Slot<T>, arrivals: seq<Slot<T>>) {
    exists a, b :: 0 <= a < b < |arrivals| && arrivals[a] == x && arrivals[b] == y
  }

  lemma AsArrivedMore<T>(items: seq<Slot<T>>, arrivals: seq<Slot<T>>, x: Slot<T>)
    requires AsArrived(items, arrivals)
    ensures AsArrived(items + [x], arrivals + [x])
  {
    var more, all := items + [x], arrivals + [x];
    assert all[|arrivals|] == x && forall a :: 0 <= a < |arrivals| ==> all[a] == arrivals[a];
    forall i, j | 0 <= i < j < |more| ensures Earlier(more[i], more[j], all) {
      if j < |items| {
        var a, b :| 0 <= a < b < |arrivals| && arrivals[a] == items[i] && arrivals[b] == items[j];
        assert all[a] == more[i] && all[b] == more[j];
      } else {
        var a :| 0 <= a < |arrivals| && arrivals[a] == items[i];
        assert all[a] == more[i] && all[|arrivals|] == more[j];
      }
    }
  }

  lemma AsArrivedWithout<T>(front: seq<Slot<T>>, items: seq<Slot<T>>, k: nat, arrivals: seq<Slot<T>>)
    requires k < |items| && AsArrived(front + items, arrivals)
    ensures AsArrived(front + (items[..k] + items[k + 1..]), arrivals)
  {
    var all, less := front + items, front + (items[..k] + items[k + 1..]);
    assert forall i :: 0 <= i < |less| ==> less[i] == all[if i < |front| + k then i else i + 1];
  }

  lemma {:induction false} AsArrivedLeft<T>(front: seq<Slot<T>>, buf: seq<Slot<T>>, keys: seq<int>,
        arrivals: seq<Slot<T>>)
    requires Poppable(buf, keys) && AsArrived(front + buf, arrivals)
    ensures AsArrived(front + Left(buf, keys), arrivals)
    decreases |keys|
  {
    if keys != [] {
      StillPoppable(buf, keys);
      AsArrivedWithout(front, buf, Position(buf, keys[0]), arrivals);
      AsArrivedLeft(front, Pop(buf, keys[0]), keys[1..], arrivals);
    }
  }

  lemma AsArrivedArrives<T>(side: Side<T>, arrivals: seq<Slot<T>>, x: Slot<T>, size: nat)
    requires AsArrived(side.evicted + side.buf, arrivals) && UniqueKeys(arrivals + [x])
    ensures var after := Arrive(side, x, size); AsArrived(after.evicted + after.buf, arrivals + [x])
  {
    FreshKey(arrivals, x);
    forall i | 0 <= i < |side.buf| ensures side.buf[i].key != x.key {
      assert (side.evicted + side.buf)[|side.evicted| + i] == side.buf[i];
    }
    PutFresh(side.buf, x);
    AsArrivedMore(side.evicted + side.buf, arrivals, x);
    var put := side.buf + [x];
    assert put == Evicted(put, size) + Trimmed(put, size);
    SumOfSums(side.evicted, Evicted(put, size), Trimmed(put, size));
    SumOfSums(side.evicted, side.buf, [x]);
  }

  /**
   Oldest first: with unique sequence numbers, over every run, what was evicted from a buffer and then what is in
   it are in the order of arrival, so that nothing is ever evicted before something older.
  */
  lemma {:induction false} OldestEvicted(events: seq<Event>, size: nat)
    requires UniqueKeys(RgbArrivals(events)) && UniqueKeys(DepthArrivals(events))
    ensures var s := Run(events, size);
      && AsArrived(s.rgb.evicted + s.rgb.buf, RgbArrivals(events))
      && AsArrived(s.depth.evicted + s.depth.buf, DepthArrivals(events))
  {
    if events != [] {
      var before := events[..|events| - 1];
      UniquePrefix(RgbArrivals(before), RgbArrivals(events));
      UniquePrefix(DepthArrivals(before), DepthArrivals(events));
      OldestEvicted(before, size);
      var s := Run(before, size);
      match events[|events| - 1]
      case RgbIn(x) => AsArrivedArrives(s.rgb, RgbArrivals(before), x, size);
      case DepthIn(x) => AsArrivedArrives(s.depth, DepthArrivals(before), x, size);
      case MatchPass =>
        AsArrivedLeft(s.rgb.evicted, s.rgb.buf, Common(s.rgb.buf, s.depth.buf), RgbArrivals(before));
        AsArrivedLeft(s.depth.evicted, s.depth.buf, Common(s.rgb.buf, s.depth.buf), DepthArrivals(before));
    }
  }

  // ---------------------------------------------------------------- order

  /** Every number still shared by the two buffers is larger than every number already taken. */
  ghost predicate SharedAbove(s: State) {
    forall k, t :: k in KeySet(s.rgb.buf) && k in KeySet(s.depth.buf) && t in KeySet(s.rgb.taken) ==> t < k
  }

  lemma Append(a: seq<int>, b: seq<int>)
    requires StrictlyIncreasing(a) && StrictlyIncreasing(b)
    requires forall x, y :: x in a && y in b ==> x < y
    ensures StrictlyIncreasing(a + b)
  {
    forall i, j | 0 <= i < j < |a + b| ensures (a + b)[i] < (a + b)[j] {
      if i < |a| <= j {
        assert a[i] in a && b[j - |a|] in b;
      }
    }
  }

  lemma Prefix(a: seq<int>, b: seq<int>)
    requires StrictlyIncreasing(b) && a <= b
    ensures StrictlyIncreasing(a)
  {
    assert forall i :: 0 <= i < |a| ==> a[i] == b[i];
  }

  lemma NewestIsLargest<T>(buf: seq<Slot<T>>, x: Slot<T>)
    requires StrictlyIncreasing(KeysOf(buf + [x]))
    ensures StrictlyIncreasing(KeysOf(buf))
    ensures forall k :: k in KeySet(buf) ==> k < x.key
  {
    KeysOfAppend(buf, [x]);
    KeySetIsKeys(buf);
    var all := KeysOf(buf + [x]);
    Prefix(KeysOf(buf), all);
    forall k | k in KeySet(buf) ensures k < x.key {
      var i :| 0 <= i < |KeysOf(buf)| && KeysOf(buf)[i] == k;
      assert all[i] == k && all[|KeysOf(buf)|] == x.key;
    }
  }

  /** An arrival brings at most its own number into the buffer. */
  lemma ArrivedKeys<T>(side: Side<T>, x: Slot<T>, size: nat)
    requires UniqueKeys(side.buf)
    ensures forall k :: k in KeySet(Arrive(side, x, size).buf) ==> k in KeySet(side.buf) || k == x.key
    ensures Arrive(side, x, size).taken == side.taken
  {
    PutKeys(side.buf, x);
    TrimFacts(Put(side.buf, x), size);
  }

  lemma RgbKeepsShared(s: State, x: Slot<Rgb>, arrivals: seq<Slot<Rgb>>, size: nat)
    requires WellKeyed(s) && SharedAbove(s) && Accounted(s.rgb, arrivals)
    requires StrictlyIncreasing(KeysOf(arrivals + [x]))
    ensures SharedAbove(Step(s, RgbIn(x), size))
  {
    ArrivedKeys(s.rgb, x, size);
    NewestIsLargest(arrivals, x);
  }

  lemma DepthKeepsShared(s: State, x: Slot<Depth>, arrivals: seq<Slot<Depth>>, size: nat)
    requires WellKeyed(s) && SharedAbove(s) && Accounted(s.depth, arrivals)
    requires KeySet(s.rgb.taken) == KeySet(s.depth.taken)
    requires StrictlyIncreasing(KeysOf(arrivals + [x]))
    ensures SharedAbove(Step(s, DepthIn(x), size))
  {
    ArrivedKeys(s.depth, x, size);
    NewestIsLargest(arrivals, x);
  }

  lemma PassKeepsOrder(s: State, size: nat)
    requires WellKeyed(s) && SharedAbove(s) && StrictlyIncreasing(KeysOf(s.rgb.taken))
    ensures SharedAbove(Step(s, MatchPass, size))
    ensures StrictlyIncreasing(KeysOf(Step(s, MatchPass, size).rgb.taken))
  {
    var keys := Common(s.rgb.buf, s.depth.buf);
    CommonIsIntersection(s.rgb.buf, s.depth.buf);
    PopAllKeys(s.rgb.buf, keys);
    PopAllKeys(s.depth.buf, keys);
    KeysOfAppend(s.rgb.taken, Taken(s.rgb.buf, keys));
    KeySetIsKeys(s.rgb.taken);
    forall t, k | t in KeysOf(s.rgb.taken) && k in keys ensures t < k {
      assert k in (set q | q in keys);
      assert k in KeySet(s.rgb.buf) * KeySet(s.depth.buf);
      assert t in KeySet(s.rgb.taken);
    }
    Append(KeysOf(s.rgb.taken), keys);
  }

  lemma {:induction false} TakenInOrder(events: seq<Event>, size: nat)
    requires StrictlyIncreasing(KeysOf(RgbArrivals(events)))
    requires StrictlyIncreasing(KeysOf(DepthArrivals(events)))
    ensures StrictlyIncreasing(KeysOf(Run(events, size).rgb.taken))
    ensures SharedAbove(Run(events, size))
  {
    if events != [] {
      var n := |events| - 1;
      var before := events[..n];
      match events[n]
      case RgbIn(x) =>
        NewestIsLargest(RgbArrivals(before), x);
        TakenInOrder(before, size);
        KeysAccountedFor(before, size);
        RgbKeepsShared(Run(before, size), x, RgbArrivals(before), size);
      case DepthIn(x) =>
        NewestIsLargest(DepthArrivals(before), x);
        TakenInOrder(before, size);
        KeysAccountedFor(before, size);
        Conservation(before, size);
        KeySetIsKeys(Run(before, size).rgb.taken);
        KeySetIsKeys(Run(before, size).depth.taken);
        DepthKeepsShared(Run(before, size), x, DepthArrivals(before), size);
      case MatchPass =>
        TakenInOrder(before, size);
        PassKeepsOrder(Run(before, size), size);
    }
  }

  lemma JoinedSeq(key: int, rgb: Rgb, depth: Depth)
    ensures Seqs(Joined(key, rgb, depth)) == [] || Seqs(Joined(key, rgb, depth)) == [key]
  {
  }

  lemma {:induction false} JoinKeepsOrder(rgb: seq<Slot<Rgb>>, depth: seq<Slot<Depth>>)
    requires |rgb| == |depth| && StrictlyIncreasing(KeysOf(rgb))
    ensures StrictlyIncreasing(Seqs(JoinAll(rgb, depth)))
    ensures forall t :: t in Seqs(JoinAll(rgb, depth)) ==> t in KeysOf(rgb)
  {
    if rgb != [] {
      var keys := KeysOf(rgb);
      assert keys[1..] == KeysOf(rgb[1..]);
      HeadIsLeast(keys);
      JoinKeepsOrder(rgb[1..], depth[1..]);
      var first := Joined(rgb[0].key, rgb[0].value, depth[0].value);
      SeqsAppend(first, JoinAll(rgb[1..], depth[1..]));
      JoinedSeq(rgb[0].key, rgb[0].value, depth[0].value);
      Append(Seqs(first), Seqs(JoinAll(rgb[1..], depth[1..])));
    }
  }

  /**
   Order.  If each stream delivers strictly increasing sequence numbers then all framesets ever emitted,
   over all passes, are strictly increasing, whatever is evicted and however arrivals and passes interleave.
  */
  lemma EmittedInOrder(events: seq<Event>, size: nat)
    requires StrictlyIncreasing(KeysOf(RgbArrivals(events)))
    requires StrictlyIncreasing(KeysOf(DepthArrivals(events)))
    ensures StrictlyIncreasing(Seqs(Run(events, size).emitted))
  {
    TakenInOrder(events, size);
    Conservation(events, size);
    JoinKeepsOrder(Run(events, size).rgb.taken, Run(events, size).depth.taken);
  }

  // ---------------------------------------------------------------- the subscriber object

  /** Before the matching loop everything remains, */
  lemma PassBegins(s: State, common: seq<int>)
    requires WellKeyed(s) && common == Common(s.rgb.buf, s.depth.buf)
    ensures Remaining(s.rgb.buf, s.depth.buf, common, [], s.rgb.buf, s.depth.buf, common)
  {
    TakenTogether(s, common);
    assert [] + JoinAll(Taken(s.rgb.buf, common), Taken(s.depth.buf, common))
        == JoinAll(Taken(s.rgb.buf, common), Taken(s.depth.buf, common));
  }

  /** and when nothing remains the pass is done. */
  lemma PassDone(s: State, rgb: seq<Slot<Rgb>>, depth: seq<Slot<Depth>>, out: seq<Frameset>, size: nat)
    requires WellKeyed(s)
    requires Remaining(rgb, depth, [], out, s.rgb.buf, s.depth.buf, Common(s.rgb.buf, s.depth.buf))
    ensures var t := Step(s, MatchPass, size);
      t.rgb.buf == rgb && t.depth.buf == depth && t.emitted == s.emitted + out
  {
    assert JoinAll([], []) == [] && out + [] == out;
  }

  /** The subscriber's two buffers, updated in place; `events` is the history the fold above replays. */
  class SensorSubscriber {
    const bufferSize: nat
    var rgbBuf: seq<Slot<Rgb>>
    var depthBuf: seq<Slot<Depth>>
    ghost var events: seq<Event>

    ghost predicate Valid()
      reads this
    {
      rgbBuf == Run(events, bufferSize).rgb.buf && depthBuf == Run(events, bufferSize).depth.buf
    }

    constructor (bufferSize: nat)
      ensures Valid() && events == [] && this.bufferSize == bufferSize
    {
      this.bufferSize := bufferSize;
      rgbBuf, depthBuf, events := [], [], [];
    }

    method RgbArrives(x: Slot<Rgb>)
      requires Valid()
      modifies this
      ensures Valid() && events == old(events) + [RgbIn(x)]
    {
      rgbBuf := Put(rgbBuf, x);
      rgbBuf := TrimLocked(rgbBuf);
      events := events + [RgbIn(x)];
      RunMore(old(events), events[|events| - 1], bufferSize);
    }

    method DepthArrives(x: Slot<Depth>)
      requires Valid()
      modifies this
      ensures Valid() && events == old(events) + [DepthIn(x)]
    {
      depthBuf := Put(depthBuf, x);
      depthBuf := TrimLocked(depthBuf);
      events := events + [DepthIn(x)];
      RunMore(old(events), events[|events| - 1], bufferSize);
    }

    /** Pops the oldest insertion until the buffer fits. */
    method TrimLocked<T>(buf: seq<Slot<T>>) returns (r: seq<Slot<T>>)
      ensures |r| == (if |buf| < bufferSize then |buf| else bufferSize) && r == buf[|buf| - |r|..]
      ensures r == Trimmed(buf, bufferSize)
    {
      r := buf;
      while |r| > bufferSize
        invariant |r| <= |buf| && r == buf[|buf| - |r|..]
        invariant |buf| <= bufferSize ==> r == buf
        invariant |buf| > bufferSize ==> |r| >= bufferSize
      {
        r := r[1..];
      }
    }

    /** Takes one pair out of the buffers and joins it. */
    method PopPair(key: int) returns (joined: seq<Frameset>)
      requires HasKey(rgbBuf, key) && HasKey(depthBuf, key)
      modifies this`rgbBuf, this`depthBuf
      ensures rgbBuf == Pop(old(rgbBuf), key) && depthBuf == Pop(old(depthBuf), key)
      ensures joined ==
          Joined(key, old(rgbBuf[Position(rgbBuf, key)].value), old(depthBuf[Position(depthBuf, key)].value))
    {
      var rgb := rgbBuf[Position(rgbBuf, key)].value;
      rgbBuf := Pop(rgbBuf, key);
      var depth := depthBuf[Position(depthBuf, key)].value;
      depthBuf := Pop(depthBuf, key);
      joined := Joined(key, rgb, depth);
    }

    /** One round of the matching loop. */
    method MatchNext(out: seq<Frameset>, key: int, ghost keys: seq<int>, ghost rgb0: seq<Slot<Rgb>>,
                     ghost depth0: seq<Slot<Depth>>, ghost common: seq<int>)
      returns (out': seq<Frameset>)
      requires Remaining(rgbBuf, depthBuf, keys, out, rgb0, depth0, common) && keys != [] && key == keys[0]
      modifies this`rgbBuf, this`depthBuf
      ensures Remaining(rgbBuf, depthBuf, keys[1..], out', rgb0, depth0, common)
    {
      OnePair(rgbBuf, depthBuf, keys, out, rgb0, depth0, common);
      var joined := PopPair(key);
      out' := out + joined;
    }

    /** The matching loop over the common keys. */
    method MatchAll(common: seq<int>) returns (out: seq<Frameset>)
      requires Remaining(rgbBuf, depthBuf, common, [], rgbBuf, depthBuf, common)
      modifies this`rgbBuf, this`depthBuf
      ensures Remaining(rgbBuf, depthBuf, [], out, old(rgbBuf), old(depthBuf), common)
    {
      out := [];
      var i := 0;
      assert common[0..] == common;
      while i < |common|
        invariant 0 <= i <= |common|
        invariant Remaining(rgbBuf, depthBuf, common[i..], out, old(rgbBuf), old(depthBuf), common)
      {
        assert common[i..][1..] == common[i + 1..];
        out := MatchNext(out, common[i], common[i..], old(rgbBuf), old(depthBuf), common);
        i := i + 1;
      }
      assert common[i..] == [];
    }

    method TryMatchLocked() returns (out: seq<Frameset>)
      requires Valid()
      modifies this
      ensures Valid() && events == old(events) + [MatchPass]
      ensures Run(events, bufferSize).emitted == Run(old(events), bufferSize).emitted + out
    {
      var common := Common(rgbBuf, depthBuf);
      PassBegins(Run(events, bufferSize), common);
      out := MatchAll(common);
      PassDone(Run(events, bufferSize), rgbBuf, depthBuf, out, bufferSize);
      events := events + [MatchPass];
      RunMore(old(events), MatchPass, bufferSize);
    }
  }
}
