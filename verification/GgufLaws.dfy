/**
  Why reading 8 KB of a model file is enough, for every file the format allows with every list of
  key/value pairs, nested arrays aside.
 */
module GgufLaws {
  import opened Wrappers
  import opened Octets
  import opened GgufFormat
  import opened GgufHeader

  // Prefix stability

  lemma ReadUintStable(t: Bytes, more: Bytes, width: nat)
    requires t <= more && ReadUint(t, width).Some?
    ensures ReadUint(more, width).Some? && ReadUint(more, width).value.0 == ReadUint(t, width).value.0
    ensures ReadUint(t, width).value.1 <= ReadUint(more, width).value.1
    ensures |ReadUint(more, width).value.1| - |ReadUint(t, width).value.1| == |more| - |t|
  {
    assert t[..width] == more[..width];
  }

  lemma ReadStringStable(t: Bytes, more: Bytes)
    requires t <= more && ReadString(t).Some?
    ensures ReadString(more).Some? && ReadString(more).value.0 == ReadString(t).value.0
    ensures ReadString(t).value.1 <= ReadString(more).value.1
    ensures |ReadString(more).value.1| - |ReadString(t).value.1| == |more| - |t|
  {
    ReadUintStable(t, more, 8);
    var n, u, v := ReadUint(t, 8).value.0, ReadUint(t, 8).value.1, ReadUint(more, 8).value.1;
    assert u[..n] == v[..n];
  }

  lemma {:induction false} SkipStringsStable(t: Bytes, more: Bytes, count: nat)
    requires t <= more && SkipStrings(t, count).Some?
    ensures SkipStrings(more, count).Some? && SkipStrings(t, count).value <= SkipStrings(more, count).value
    ensures |SkipStrings(more, count).value| - |SkipStrings(t, count).value| == |more| - |t|
    decreases count
  {
    if count > 0 {
      ReadStringStable(t, more);
      SkipStringsStable(ReadString(t).value.1, ReadString(more).value.1, count - 1);
    }
  }

  /** A cursor in a window and the same cursor in a longer one, which may not be past its end. */
  predicate Within(c: Cursor, more: Cursor) {
    c.Past? || (more.Left? && c.t <= more.t)
  }

  /** It has `lag` bytes fewer to go. */
  predicate Lags(c: Cursor, more: Cursor, lag: int) {
    c.Past? || (more.Left? && |more.t| - |c.t| == lag)
  }

  lemma AdvanceStable(t: Bytes, more: Bytes, w: nat)
    requires t <= more
    ensures Within(Advance(t, w), Advance(more, w)) && Lags(Advance(t, w), Advance(more, w), |more| - |t|)
  {
  }

  lemma SkipArrayStable(t: Bytes, more: Bytes)
    requires t <= more && SkipArray(t).Some?
    ensures SkipArray(more).Some? && Within(SkipArray(t).value, SkipArray(more).value)
    ensures Lags(SkipArray(t).value, SkipArray(more).value, |more| - |t|)
  {
    ReadUintStable(t, more, 4);
    var at, at' := ReadUint(t, 4).value, ReadUint(more, 4).value;
    ReadUintStable(at.1, at'.1, 8);
    var count, count' := ReadUint(at.1, 8).value, ReadUint(at'.1, 8).value;
    if at.0 == STRING {
      SkipStringsStable(count.1, count'.1, count.0);
    } else {
      AdvanceStable(count.1, count'.1, count.0 * Width(at.0));
    }
  }

  lemma ReadValueStable(t: Bytes, more: Bytes, vt: nat, key: Bytes, h: Header)
    requires t <= more && ReadValue(t, vt, key, h).Some?
    ensures ReadValue(more, vt, key, h).Some?
    ensures ReadValue(more, vt, key, h).value.0 == ReadValue(t, vt, key, h).value.0
    ensures Within(ReadValue(t, vt, key, h).value.1, ReadValue(more, vt, key, h).value.1)
    ensures Lags(ReadValue(t, vt, key, h).value.1, ReadValue(more, vt, key, h).value.1, |more| - |t|)
  {
    if vt == UINT32 {
      ReadUintStable(t, more, 4);
    } else if vt == UINT64 {
      ReadUintStable(t, more, 8);
    } else if vt == STRING {
      ReadStringStable(t, more);
    } else if vt == ARRAY {
      SkipArrayStable(t, more);
    } else {
      AdvanceStable(t, more, Width(vt));
    }
  }

  lemma ReadKeyStable(t: Bytes, more: Bytes)
    requires t <= more && ReadKey(t).Some?
    ensures ReadKey(more).Some? && ReadKey(more).value.0 == ReadKey(t).value.0
    ensures ReadKey(more).value.1 == ReadKey(t).value.1 && ReadKey(t).value.2 <= ReadKey(more).value.2
    ensures |ReadKey(more).value.2| - |ReadKey(t).value.2| == |more| - |t|
  {
    ReadStringStable(t, more);
    ReadUintStable(ReadString(t).value.1, ReadString(more).value.1, 4);
  }

  /** A round that does not fail on some data does the same on more. */
  ghost predicate Stable(read: Reader) {
    forall t, more, h :: t <= more && read(t, h) != Fail ==> SameRound(read(t, h), read(more, h))
  }

  predicate SameRound(r: Round, more: Round) {
    match r
    case Next(c, h) => more.Next? && more.h == h && Within(c, more.c)
    case _ => more == r
  }

  lemma ReadRoundStable(t: Bytes, more: Bytes, h: Header)
    requires t <= more && ReadRound(t, h) != Fail
    ensures SameRound(ReadRound(t, h), ReadRound(more, h))
  {
    ReadKeyStable(t, more);
    var k, k' := ReadKey(t).value, ReadKey(more).value;
    if !IsTokenizer(k.0) { ReadValueStable(k.2, k'.2, k.1, k.0, h); }
  }

  lemma {:induction false} LoopStable(read: Reader, c: Cursor, more: Cursor, left: nat, h: Header)
    requires Stable(read) && Within(c, more) && Loop(read, c, left, h).1.None?
    ensures Loop(read, more, left, h) == Loop(read, c, left, h)
    decreases left
  {
    if left > 0 {
      assert SameRound(read(c.t, h), read(more.t, h));
      match read(c.t, h)
      case Next(c', h') => LoopStable(read, c', read(more.t, h).c, left - 1, h');
      case _ =>
    }
  }

  /** What a window answers without an error, every longer window and the whole file answer too. */
  lemma PrefixStable(data: Bytes, more: Bytes)
    requires data <= more && Parse(data).1.None?
    ensures Parse(more) == Parse(data)
  {
    assert Stable(ReadRound) by {
      forall t, more, h | t <= more && ReadRound(t, h) != Fail ensures SameRound(ReadRound(t, h), ReadRound(more, h)) {
        ReadRoundStable(t, more, h);
      }
    }
    assert data[..4] == more[..4] && data[16..24] == more[16..24] && data[24..] <= more[24..];
    LoopStable(ReadRound, Left(data[24..]), Left(more[24..]), Little(data[16..24]), Header([], 0));
  }

  // Work is bounded by the bytes, not by the counts they declare

  function Room(c: Cursor): nat {
    if c.Past? then 0 else |c.t|
  }

  lemma {:induction false} StringReadsBounded(t: Bytes, count: nat)
    ensures 8 * StringReadsOf(t, count) <= |t| + 8
    ensures SkipStrings(t, count).Some? ==> 8 * StringReadsOf(t, count) + |SkipStrings(t, count).value| <= |t|
    decreases count
  {
    if count > 0 && ReadString(t).Some? {
      StringReadsBounded(ReadString(t).value.1, count - 1);
    }
  }

  lemma ValueReadsBounded(t: Bytes, vt: nat, key: Bytes, h: Header)
    ensures 8 * ValueReads(t, vt) <= |t| + 8
    ensures var r := ReadValue(t, vt, key, h);
      r.Some? ==> 8 * ValueReads(t, vt) + Room(r.value.1) <= |t|
  {
    if vt == ARRAY && ReadUint(t, 4).Some? {
      var at := ReadUint(t, 4).value;
      if ReadUint(at.1, 8).Some? {
        var count := ReadUint(at.1, 8).value;
        StringReadsBounded(count.1, count.0);
      }
    }
  }

  /** Each read of a round is paid for by eight bytes, but for the one that may fail at its end. */
  predicate PaidRound(t: Bytes, spent: nat, r: Round) {
    if r.Next? then 8 * spent + Room(r.c) <= |t| else 8 * spent <= |t| + 8
  }

  ghost predicate Paid(read: Reader, cost: (Bytes, Header) -> nat) {
    forall t, h :: PaidRound(t, cost(t, h), read(t, h))
  }

  lemma KeyTakesRoom(t: Bytes)
    requires ReadKey(t).Some?
    ensures |ReadKey(t).value.2| + 12 <= |t|
  {
  }

  lemma RoundIsPaid(t: Bytes, h: Header)
    ensures PaidRound(t, RoundReads(t, h), ReadRound(t, h))
  {
    if ReadKey(t).Some? {
      var k := ReadKey(t).value;
      KeyTakesRoom(t);
      if !IsTokenizer(k.0) { ValueReadsBounded(k.2, k.1, k.0, h); }
    }
  }

  lemma {:induction false} ReadsBounded(read: Reader, cost: (Bytes, Header) -> nat, c: Cursor, left: nat, h: Header)
    requires Paid(read, cost)
    ensures 8 * Reads(read, cost, c, left, h) <= Room(c) + 8
    decreases left
  {
    if left > 0 && c.Left? {
      assert PaidRound(c.t, cost(c.t, h), read(c.t, h));
      match read(c.t, h)
      case Next(c', h') => ReadsBounded(read, cost, c', left - 1, h');
      case _ =>
    }
  }

  /** However large the counts a file declares, a window of n bytes costs at most (n - 24) / 8 + 1 string reads. */
  lemma ParseWorkBounded(data: Bytes)
    requires |data| >= 24
    ensures Reads(ReadRound, RoundReads, Left(data[24..]), Little(data[16..24]), Header([], 0)) <= (|data| - 24) / 8 + 1
  {
    assert Paid(ReadRound, RoundReads) by {
      forall t, h ensures PaidRound(t, RoundReads(t, h), ReadRound(t, h)) { RoundIsPaid(t, h); }
    }
    ReadsBounded(ReadRound, RoundReads, Left(data[24..]), Little(data[16..24]), Header([], 0));
  }

  lemma {:induction false} LittleInvertsLE(v: nat, width: nat)
    requires v < Pow256(width)
    ensures Little(LE(v, width)) == v
  {
    if width > 0 {
      assert LE(v, width)[1..] == LE(v / 256, width - 1);
      LittleInvertsLE(v / 256, width - 1);
    }
  }

  lemma Pow256Facts()
    ensures Pow256(4) == 0x1_0000_0000 && Pow256(8) == 0x1_0000_0000_0000_0000
  {
    assert Pow256(2) == 0x1_0000;
    assert Pow256(4) == 256 * Pow256(3) && Pow256(3) == 256 * Pow256(2);
    assert Pow256(6) == 256 * Pow256(5) && Pow256(5) == 256 * Pow256(4);
    assert Pow256(8) == 256 * Pow256(7) && Pow256(7) == 256 * Pow256(6);
  }

  // Parsing what was encoded

  lemma ReadsUint(v: nat, width: nat, tail: Bytes)
    requires v < Pow256(width)
    ensures ReadUint(EncUint(v, width, tail), width) == Some((v, tail))
  {
    LittleInvertsLE(v, width);
    assert EncUint(v, width, tail)[..width] == LE(v, width) && EncUint(v, width, tail)[width..] == tail;
  }

  lemma ReadsString(s: Bytes, tail: Bytes)
    requires Fits(|s|)
    ensures ReadString(EncString(s, tail)) == Some((s, tail))
  {
    Pow256Facts();
    ReadsUint(|s|, 8, s + tail);
  }

  lemma {:induction false} SkipsStrings(ss: seq<Bytes>, tail: Bytes)
    requires forall s :: s in ss ==> Fits(|s|)
    ensures SkipStrings(EncStrings(ss, tail), |ss|) == Some(tail)
    decreases |ss|
  {
    if ss != [] {
      ReadsString(ss[0], EncStrings(ss[1..], tail));
      SkipsStrings(ss[1..], tail);
    }
  }

  /** What one pair adds to the header. */
  function Noted(h: Header, p: Pair): Header {
    if NamesArch(p) then h.(arch := p.value.s)
    else if NamesContext(p) then h.(ctxLen := ContextOf(p.value))
    else h
  }

  /** The parser's table gives every type its size, and its own numbers are those of the format. */
  lemma KindsAgree(kind: Kind)
    ensures Width(Code(kind)) == Size(kind) && Code(kind) < 256
    ensures Code(kind) != STRING && Code(kind) != ARRAY
    ensures (Code(kind) == UINT32 <==> kind.Uint32?) && (Code(kind) == UINT64 <==> kind.Uint64?)
  {
  }

  lemma NumbersAgree()
    ensures UINT32 == 4 && STRING == 8 && ARRAY == 9 && UINT64 == 10
  {
  }

  lemma {:induction false} MentionsExactly(key: Bytes, name: Bytes)
    ensures Mentions(key, name) <==> Contains(key, name)
    decreases |key|
  {
    assert StandsAt(key, name, 0) <==> name <= key;
    if !(name <= key) && key != [] {
      MentionsExactly(key[1..], name);
      if i :| 0 <= i <= |key[1..]| && StandsAt(key[1..], name, i) {
        assert key[1..][i..i + |name|] == key[i + 1..i + 1 + |name|];
        assert StandsAt(key, name, i + 1);
      }
      if i :| 0 <= i <= |key| && StandsAt(key, name, i) {
        assert i != 0;
        assert key[1..][i - 1..i - 1 + |name|] == key[i..i + |name|];
        assert StandsAt(key[1..], name, i - 1);
      }
    }
  }

  /** And it looks for the keys by their names. */
  lemma KeysAgree(key: Bytes)
    ensures IsTokenizer(key) <==> OpensVocabulary(key)
    ensures key == ARCHITECTURE <==> key == Ascii("general.architecture")
    ensures Contains(key, CONTEXT_LENGTH) <==> Mentions(key, CONTEXT_NAME)
  {
    MentionsExactly(key, CONTEXT_NAME);
  }

  lemma SkipsScalars(kind: Kind, count: nat, raw: Bytes, tail: Bytes)
    requires Fits(count) && |raw| == count * Size(kind)
    ensures SkipArray(EncUint(Code(kind), 4, EncUint(count, 8, raw + tail))) == Some(Left(tail))
  {
    Pow256Facts();
    KindsAgree(kind);
    ReadsUint(Code(kind), 4, EncUint(count, 8, raw + tail));
    ReadsUint(count, 8, raw + tail);
    assert (raw + tail)[|raw|..] == tail;
  }

  lemma SkipsTexts(ss: seq<Bytes>, tail: Bytes)
    requires Fits(|ss|) && forall s :: s in ss ==> Fits(|s|)
    ensures SkipArray(EncUint(8, 4, EncUint(|ss|, 8, EncStrings(ss, tail)))) == Some(Left(tail))
  {
    Pow256Facts();
    ReadsUint(8, 4, EncUint(|ss|, 8, EncStrings(ss, tail)));
    ReadsUint(|ss|, 8, EncStrings(ss, tail));
    SkipsStrings(ss, tail);
  }

  /** A type the format does not have is taken for eight bytes. */
  lemma UnknownTypesAreEight(vt: nat, t: Bytes)
    requires vt > 12
    ensures Skip(t, vt) == Some(if |t| < 8 then Past else Left(t[8..]))
  {
  }

  lemma {:induction false} ArraysAreLong(vs: seq<Value>, tail: Bytes)
    requires forall v :: v in vs ==> v.Scalars? || v.Texts?
    ensures |EncArrays(vs, tail)| >= 12 * |vs| + |tail|
    decreases |vs|
  {
    if vs != [] {
      assert vs[0] in vs;
      ArraysAreLong(vs[1..], tail);
      if vs[0].Texts? { StringsAreLong(vs[0].ss, EncArrays(vs[1..], tail)); }
    }
  }

  lemma {:induction false} StringsAreLong(ss: seq<Bytes>, tail: Bytes)
    ensures |EncStrings(ss, tail)| >= |tail|
    decreases |ss|
  {
    if ss != [] { StringsAreLong(ss[1..], tail); }
  }

  /** An array of arrays is stepped over at four bytes an element, so it is skipped to its end exactly when it is empty. */
  lemma NestedArraysSkipExactly(vs: seq<Value>, tail: Bytes)
    requires Fits(|vs|) && forall v :: v in vs ==> v.Scalars? || v.Texts?
    ensures Skip(EncUint(9, 4, EncUint(|vs|, 8, EncArrays(vs, tail))), 9) == Some(Left(tail)) <==> vs == []
  {
    Pow256Facts();
    NumbersAgree();
    var body := EncArrays(vs, tail);
    ReadsUint(9, 4, EncUint(|vs|, 8, body));
    ReadsUint(|vs|, 8, body);
    ArraysAreLong(vs, tail);
    assert Skip(EncUint(9, 4, EncUint(|vs|, 8, body)), 9) == Some(Advance(body, |vs| * 4));
    if vs == [] { assert body[0..] == tail; }
  }

  lemma ReadsValue(p: Pair, h: Header, tail: Bytes)
    requires ValidPair(p)
    ensures ReadValue(EncValue(p.value, tail), TypeOf(p.value), p.key, h) == Some((Noted(h, p), Left(tail)))
  {
    Pow256Facts();
    NumbersAgree();
    KeysAgree(p.key);
    match p.value
    case U32(n) => ReadsUint(n, 4, tail);
    case U64(n) => ReadsUint(n, 8, tail);
    case Scalar(kind, raw) =>
      KindsAgree(kind);
      assert (raw + tail)[|raw|..] == tail;
    case Text(s) => ReadsString(s, tail);
    case Scalars(kind, count, raw) => SkipsScalars(kind, count, raw, tail);
    case Texts(ss) => SkipsTexts(ss, tail);
  }

  lemma ReadsKey(p: Pair, tail: Bytes)
    requires ValidPair(p)
    ensures ReadKey(EncKey(p, tail)) == Some((p.key, TypeOf(p.value), tail))
  {
    Pow256Facts();
    if p.value.Scalar? { KindsAgree(p.value.kind); }
    ReadsString(p.key, EncUint(TypeOf(p.value), 4, tail));
    ReadsUint(TypeOf(p.value), 4, tail);
  }

  function NotedAll(h: Header, ps: seq<Pair>): Header
    decreases |ps|
  {
    if ps == [] then h else NotedAll(Noted(h, ps[0]), ps[1..])
  }

  lemma LeadingStep(h: Header, ps: seq<Pair>)
    requires ps != [] && !OpensVocabulary(ps[0].key)
    ensures NotedAll(h, Leading(ps)) == NotedAll(Noted(h, ps[0]), Leading(ps[1..]))
  {
    assert Leading(ps)[1..] == Leading(ps[1..]);
  }

  ghost predicate TakesPair(read: Reader, p: Pair, h: Header, tail: Bytes) {
    if OpensVocabulary(p.key) then read(EncKey(p, tail), h) == Stop
    else read(EncKey(p, EncValue(p.value, tail)), h) == Next(Left(tail), Noted(h, p))
  }

  lemma ReadRoundTakesPair(p: Pair, h: Header, tail: Bytes)
    requires ValidPair(p)
    ensures TakesPair(ReadRound, p, h, tail)
  {
    KeysAgree(p.key);
    if OpensVocabulary(p.key) {
      ReadsKey(p, tail);
    } else {
      ReadsKey(p, EncValue(p.value, tail));
      ReadsValue(p, h, tail);
    }
  }

  /** A reader and an encoding that fit: each encoded pair is taken in, and the tokenizer stops it. */
  ghost predicate Fitting(read: Reader, needed: seq<Pair> -> Bytes) {
    forall ps: seq<Pair>, h :: ps != [] && ValidPair(ps[0]) ==>
      read(needed(ps), h) ==
        if OpensVocabulary(ps[0].key) then Stop else Next(Left(needed(ps[1..])), Noted(h, ps[0]))
  }

  lemma {:induction false} LoopReads(read: Reader, needed: seq<Pair> -> Bytes, ps: seq<Pair>, h: Header)
    requires Fitting(read, needed) && ValidPairs(ps)
    ensures Loop(read, Left(needed(ps)), |ps|, h) == (NotedAll(h, Leading(ps)), None)
    decreases |ps|
  {
    if ps != [] {
      LoopOnce(read, (t, h) => 0, needed(ps), |ps|, h);
      if !OpensVocabulary(ps[0].key) {
        LoopReads(read, needed, ps[1..], Noted(h, ps[0]));
        LeadingStep(h, ps);
      }
    }
  }

  lemma ReadRoundFits()
    ensures Fitting(ReadRound, NeededPairs)
  {
    forall ps: seq<Pair>, h | ps != [] && ValidPair(ps[0])
      ensures ReadRound(NeededPairs(ps), h) ==
        if OpensVocabulary(ps[0].key) then Stop else Next(Left(NeededPairs(ps[1..])), Noted(h, ps[0]))
    {
      ReadRoundTakesPair(ps[0], h, if OpensVocabulary(ps[0].key) then [] else NeededPairs(ps[1..]));
    }
  }

  lemma {:induction false} NotedAllAppend(h: Header, ps: seq<Pair>, p: Pair)
    ensures NotedAll(h, ps + [p]) == Noted(NotedAll(h, ps), p)
    decreases |ps|
  {
    if ps == [] {
      assert [p][1..] == [];
    } else {
      assert (ps + [p])[1..] == ps[1..] + [p];
      NotedAllAppend(Noted(h, ps[0]), ps[1..], p);
    }
  }

  /** Noting the pairs in turn keeps the last of each kind. */
  lemma {:induction false} NotedAllIsLast(ps: seq<Pair>)
    ensures NotedAll(Header([], 0), ps) == Header(LastArch(ps), LastContext(ps))
    decreases |ps|
  {
    if ps != [] {
      var front, p := ps[..|ps| - 1], ps[|ps| - 1];
      assert ps == front + [p];
      NotedAllAppend(Header([], 0), front, p);
      NotedAllIsLast(front);
    }
  }

  lemma ParsesFramed(version: nat, tensors: nat, count: nat, tail: Bytes)
    requires Fits(count)
    ensures Parse(Framed(version, tensors, count, tail)) == Loop(ReadRound, Left(tail), count, Header([], 0))
  {
    var data := Framed(version, tensors, count, tail);
    assert data[..4] == MAGIC;
    assert data == (MAGIC + LE(version, 4) + LE(tensors, 8)) + (LE(count, 8) + tail);
    assert data[16..24] == LE(count, 8) && data[24..] == tail;
    Pow256Facts();
    LittleInvertsLE(count, 8);
  }

  // A needed part is a prefix of the whole

  lemma FrontPrefix(front: Bytes, a: Bytes, b: Bytes)
    requires a <= b
    ensures front + a <= front + b
  {
    assert (front + b)[..|front + a|] == front + b[..|a|] == front + a;
  }

  lemma StringPrefix(s: Bytes, a: Bytes, b: Bytes)
    requires a <= b
    ensures EncString(s, a) <= EncString(s, b)
  {
    FrontPrefix(s, a, b);
    FrontPrefix(LE(|s|, 8), s + a, s + b);
  }

  lemma KeyPrefix(p: Pair, a: Bytes, b: Bytes)
    requires a <= b
    ensures EncKey(p, a) <= EncKey(p, b)
  {
    FrontPrefix(LE(TypeOf(p.value), 4), a, b);
    StringPrefix(p.key, EncUint(TypeOf(p.value), 4, a), EncUint(TypeOf(p.value), 4, b));
  }

  lemma {:induction false} StringsPrefix(ss: seq<Bytes>, a: Bytes, b: Bytes)
    requires a <= b
    ensures EncStrings(ss, a) <= EncStrings(ss, b)
    decreases |ss|
  {
    if ss != [] {
      StringsPrefix(ss[1..], a, b);
      StringPrefix(ss[0], EncStrings(ss[1..], a), EncStrings(ss[1..], b));
    }
  }

  lemma ArrayPrefix(kind: nat, count: nat, a: Bytes, b: Bytes)
    requires a <= b
    ensures EncUint(kind, 4, EncUint(count, 8, a)) <= EncUint(kind, 4, EncUint(count, 8, b))
  {
    FrontPrefix(LE(count, 8), a, b);
    FrontPrefix(LE(kind, 4), EncUint(count, 8, a), EncUint(count, 8, b));
  }

  lemma ValuePrefix(v: Value, a: Bytes, b: Bytes)
    requires a <= b
    ensures EncValue(v, a) <= EncValue(v, b)
  {
    match v
    case U32(n) => FrontPrefix(LE(n, 4), a, b);
    case U64(n) => FrontPrefix(LE(n, 8), a, b);
    case Scalar(_, raw) => FrontPrefix(raw, a, b);
    case Text(s) => StringPrefix(s, a, b);
    case Scalars(kind, count, raw) =>
      FrontPrefix(raw, a, b);
      ArrayPrefix(Code(kind), count, raw + a, raw + b);
    case Texts(ss) =>
      StringsPrefix(ss, a, b);
      ArrayPrefix(8, |ss|, EncStrings(ss, a), EncStrings(ss, b));
  }

  lemma {:induction false} NeededIsPrefix(ps: seq<Pair>, rest: Bytes)
    ensures NeededPairs(ps) <= EncPairs(ps, rest)
    decreases |ps|
  {
    if ps != [] {
      var p, tail := ps[0], EncPairs(ps[1..], rest);
      if OpensVocabulary(p.key) {
        KeyPrefix(p, [], EncValue(p.value, tail));
      } else {
        NeededIsPrefix(ps[1..], rest);
        ValuePrefix(p.value, NeededPairs(ps[1..]), tail);
        KeyPrefix(p, EncValue(p.value, NeededPairs(ps[1..])), EncValue(p.value, tail));
      }
    }
  }

  lemma FramedPrefix(version: nat, tensors: nat, count: nat, a: Bytes, b: Bytes)
    requires a <= b
    ensures Framed(version, tensors, count, a) <= Framed(version, tensors, count, b)
    ensures |Framed(version, tensors, count, a)| == 24 + |a|
  {
    FrontPrefix(LE(count, 8), a, b);
    FrontPrefix(LE(tensors, 8), EncUint(count, 8, a), EncUint(count, 8, b));
    FrontPrefix(LE(version, 4), EncUint(tensors, 8, EncUint(count, 8, a)), EncUint(tensors, 8, EncUint(count, 8, b)));
    FrontPrefix(['G' as int, 'G' as int, 'U' as int, 'F' as int], EncUint(version, 4, EncUint(tensors, 8, EncUint(count, 8, a))),
      EncUint(version, 4, EncUint(tensors, 8, EncUint(count, 8, b))));
  }

  /**
    The ranged read is enough: any window of an encoded file, whatever follows the metadata, that
    reaches past the first tokenizer key and its type answers the last architecture and the last
    context length before that key.
   */
  lemma WindowParses(version: nat, tensors: nat, ps: seq<Pair>, rest: Bytes, n: nat)
    requires ValidPairs(ps) && Fits(|ps|)
    requires 24 + |NeededPairs(ps)| <= n <= |Encode(version, tensors, ps, rest)|
    ensures Parse(Encode(version, tensors, ps, rest)[..n])
         == (Header(LastArch(Leading(ps)), LastContext(Leading(ps))), None)
  {
    var shortest := Framed(version, tensors, |ps|, NeededPairs(ps));
    var window := Encode(version, tensors, ps, rest)[..n];
    NeededIsPrefix(ps, rest);
    FramedPrefix(version, tensors, |ps|, NeededPairs(ps), EncPairs(ps, rest));
    assert shortest <= window;
    ParsesFramed(version, tensors, |ps|, NeededPairs(ps));
    ReadRoundFits();
    LoopReads(ReadRound, NeededPairs, ps, Header([], 0));
    NotedAllIsLast(Leading(ps));
    PrefixStable(shortest, window);
  }

  // A window that is too short

  predicate HasVocabulary(ps: seq<Pair>) {
    exists p :: p in ps && OpensVocabulary(p.key)
  }

  /** A proper front of what a round needs fails it, or leaves the next round short, or the data overrun. */
  ghost predicate Shorts(read: Reader, needed: seq<Pair> -> Bytes) {
    forall ps: seq<Pair>, t, h :: ps != [] && ValidPair(ps[0]) && t <= needed(ps) && |t| < |needed(ps)| ==>
      match read(t, h)
      case Fail => true
      case Stop => false
      case Next(c, h') =>
        && !OpensVocabulary(ps[0].key) && h' == Noted(h, ps[0])
        && (c.Past? || (c.t <= needed(ps[1..]) && |c.t| < |needed(ps[1..])|))
  }

  lemma ReadRoundShorts(ps: seq<Pair>, t: Bytes, h: Header)
    requires ps != [] && ValidPair(ps[0]) && t <= NeededPairs(ps) && |t| < |NeededPairs(ps)| && ReadRound(t, h) != Fail
    ensures ReadRound(t, h).Next? && !OpensVocabulary(ps[0].key) && ReadRound(t, h).h == Noted(h, ps[0])
    ensures var c := ReadRound(t, h).c;
            c.Past? || (c.t <= NeededPairs(ps[1..]) && |c.t| < |NeededPairs(ps[1..])|)
  {
    var p := ps[0];
    var tail := if OpensVocabulary(p.key) then [] else EncValue(p.value, NeededPairs(ps[1..]));
    KeysAgree(p.key);
    ReadsKey(p, tail);
    ReadKeyStable(t, NeededPairs(ps));
    var k := ReadKey(t).value;
    assert k.2 <= tail && |k.2| < |tail|;
    ReadsValue(p, h, NeededPairs(ps[1..]));
    ReadValueStable(k.2, tail, k.1, k.0, h);
  }

  lemma RoundsRunShort()
    ensures Shorts(ReadRound, NeededPairs)
  {
    forall ps: seq<Pair>, t, h | ps != [] && ValidPair(ps[0]) && t <= NeededPairs(ps) && |t| < |NeededPairs(ps)|
      ensures match ReadRound(t, h)
              case Fail => true
              case Stop => false
              case Next(c, h') =>
                && !OpensVocabulary(ps[0].key) && h' == Noted(h, ps[0])
                && (c.Past? || (c.t <= NeededPairs(ps[1..]) && |c.t| < |NeededPairs(ps[1..])|))
    {
      if ReadRound(t, h) != Fail { ReadRoundShorts(ps, t, h); }
    }
  }

  lemma WindowIsFramed(version: nat, tensors: nat, ps: seq<Pair>, rest: Bytes, n: nat)
    requires 24 <= n < 24 + |NeededPairs(ps)|
    ensures n <= |Encode(version, tensors, ps, rest)|
    ensures Encode(version, tensors, ps, rest)[..n] == Framed(version, tensors, |ps|, NeededPairs(ps)[..n - 24])
  {
    NeededIsPrefix(ps, rest);
    FramedPrefix(version, tensors, |ps|, NeededPairs(ps)[..n - 24], EncPairs(ps, rest));
  }

  lemma VocabularyAfter(ps: seq<Pair>)
    requires HasVocabulary(ps) && ps != [] && !OpensVocabulary(ps[0].key)
    ensures HasVocabulary(ps[1..])
  {
  }

  lemma LeadingFront(h: Header, ps: seq<Pair>, n: nat)
    requires ps != [] && !OpensVocabulary(ps[0].key) && n <= |Leading(ps[1..])|
    ensures n + 1 <= |Leading(ps)|
    ensures NotedAll(h, Leading(ps)[..n + 1]) == NotedAll(Noted(h, ps[0]), Leading(ps[1..])[..n])
  {
    assert Leading(ps)[..n + 1][1..] == Leading(ps[1..])[..n];
  }

  /** One round of a short window: the loop ends with an error, or goes on short. */
  lemma ShortRound(read: Reader, needed: seq<Pair> -> Bytes, ps: seq<Pair>, t: Bytes, h: Header)
    requires Shorts(read, needed) && ps != [] && ValidPair(ps[0]) && t <= needed(ps) && |t| < |needed(ps)|
    ensures read(t, h) == Fail ==> Loop(read, Left(t), |ps|, h) == (h, Some(Truncated))
    ensures read(t, h) != Fail ==>
      && read(t, h).Next? && !OpensVocabulary(ps[0].key)
      && Loop(read, Left(t), |ps|, h) == Loop(read, read(t, h).c, |ps| - 1, Noted(h, ps[0]))
      && var c := read(t, h).c; c.Past? || (c.t <= needed(ps[1..]) && |c.t| < |needed(ps[1..])|)
  {
  }

  lemma {:induction false} LoopRunsShort(read: Reader, needed: seq<Pair> -> Bytes, ps: seq<Pair>, c: Cursor, h: Header)
      returns (n: nat)
    requires Shorts(read, needed) && ValidPairs(ps) && HasVocabulary(ps)
    requires c.Past? || (c.t <= needed(ps) && |c.t| < |needed(ps)|)
    ensures n <= |Leading(ps)| && Loop(read, c, |ps|, h) == (NotedAll(h, Leading(ps)[..n]), Some(Truncated))
    decreases |ps|
  {
    if c.Past? {
      return 0;
    }
    ShortRound(read, needed, ps, c.t, h);
    var round := read(c.t, h);
    if round == Fail {
      return 0;
    }
    VocabularyAfter(ps);
    var m := LoopRunsShort(read, needed, ps[1..], round.c, Noted(h, ps[0]));
    LeadingFront(h, ps, m);
    return m + 1;
  }

  /**
    It is needed, too: a window of a file with a tokenizer key that ends before that key's type is answered
    with an error, and with what the pairs read whole say.
   */
  lemma ShortWindowIsTruncated(version: nat, tensors: nat, ps: seq<Pair>, rest: Bytes, n: nat) returns (read: nat)
    requires ValidPairs(ps) && Fits(|ps|) && HasVocabulary(ps)
    requires 24 <= n < 24 + |NeededPairs(ps)|
    ensures n <= |Encode(version, tensors, ps, rest)| && read <= |Leading(ps)|
    ensures Parse(Encode(version, tensors, ps, rest)[..n]) ==
            (Header(LastArch(Leading(ps)[..read]), LastContext(Leading(ps)[..read])), Some(Truncated))
  {
    var front := NeededPairs(ps)[..n - 24];
    WindowIsFramed(version, tensors, ps, rest, n);
    ParsesFramed(version, tensors, |ps|, front);
    RoundsRunShort();
    read := LoopRunsShort(ReadRound, NeededPairs, ps, Left(front), Header([], 0));
    NotedAllIsLast(Leading(ps)[..read]);
  }

  /** A window that holds no header at all, or another magic, is no GGUF file. */
  lemma NoHeaderNoFile(data: Bytes)
    ensures Parse(data) == (Header([], 0), Some(NotGguf)) <==>
      |data| < 24 || data[0] != 'G' as int || data[1] != 'G' as int || data[2] != 'U' as int || data[3] != 'F' as int
  {
    if |data| >= 24 {
      LoopSaysTruncated(ReadRound, Left(data[24..]), Little(data[16..24]), Header([], 0));
    }
  }

  /** The whole file answers the same: the parser inverts the encoder up to what it keeps. */
  lemma ParseInvertsEncode(version: nat, tensors: nat, ps: seq<Pair>, rest: Bytes)
    requires ValidPairs(ps) && Fits(|ps|)
    ensures Parse(Encode(version, tensors, ps, rest))
         == (Header(LastArch(Leading(ps)), LastContext(Leading(ps))), None)
  {
    var file := Encode(version, tensors, ps, rest);
    NeededIsPrefix(ps, rest);
    FramedPrefix(version, tensors, |ps|, NeededPairs(ps), EncPairs(ps, rest));
    WindowParses(version, tensors, ps, rest, |file|);
    assert file[..|file|] == file;
  }

  // The context length of the model, and other keys that contain its name

  /** The key the specification gives the context length of an architecture. */
  function DocumentedKey(arch: Bytes): Bytes {
    arch + Ascii(".") + CONTEXT_NAME
  }

  predicate IsLength(v: Value) {
    v.U32? || v.U64?
  }

  /** The last length stored under one key among some pairs, 0 when there is none. */
  function LastUnder(ps: seq<Pair>, key: Bytes): int {
    if ps == [] then 0
    else
      var p := ps[|ps| - 1];
      if p.key == key && IsLength(p.value) then ContextOf(p.value) else LastUnder(ps[..|ps| - 1], key)
  }

  /** The last pair whose key contains context_length. */
  function LastNaming(ps: seq<Pair>): (r: Option<Pair>)
    ensures r.Some? ==> NamesContext(r.value)
  {
    if ps == [] then None
    else if NamesContext(ps[|ps| - 1]) then Some(ps[|ps| - 1])
    else LastNaming(ps[..|ps| - 1])
  }

  lemma DocumentedKeyNames(arch: Bytes)
    ensures Mentions(DocumentedKey(arch), CONTEXT_NAME)
  {
    var i := |arch + Ascii(".")|;
    assert DocumentedKey(arch)[i..i + |CONTEXT_NAME|] == CONTEXT_NAME;
    assert StandsAt(DocumentedKey(arch), CONTEXT_NAME, i);
    MentionsExactly(DocumentedKey(arch), CONTEXT_NAME);
  }

  lemma {:induction false} LastNamingDecides(ps: seq<Pair>, key: Bytes)
    requires Mentions(key, CONTEXT_NAME)
    ensures LastContext(ps) == if LastNaming(ps).None? then 0 else ContextOf(LastNaming(ps).value.value)
    ensures LastNaming(ps).None? ==> LastUnder(ps, key) == 0
    ensures LastNaming(ps).Some? && LastNaming(ps).value.key == key ==> LastUnder(ps, key) == LastContext(ps)
    decreases |ps|
  {
    if ps != [] { LastNamingDecides(ps[..|ps| - 1], key); }
  }

  /**
    The parser takes any key that contains context_length. What it answers is the length under
    `<arch>.context_length` exactly when no such pair stands before the tokenizer, or the last of them
    carries that very key, or happens to carry that value.
   */
  lemma ContextIsDocumentedExactly(version: nat, tensors: nat, ps: seq<Pair>, rest: Bytes)
    requires ValidPairs(ps) && Fits(|ps|)
    ensures var lead := Leading(ps);
      var key := DocumentedKey(LastArch(lead));
      var last := LastNaming(lead);
      Parse(Encode(version, tensors, ps, rest)).0.ctxLen == LastUnder(lead, key) <==>
        last.None? || last.value.key == key || ContextOf(last.value.value) == LastUnder(lead, key)
  {
    ParseInvertsEncode(version, tensors, ps, rest);
    DocumentedKeyNames(LastArch(Leading(ps)));
    LastNamingDecides(Leading(ps), DocumentedKey(LastArch(Leading(ps))));
  }

  // The same for every length the keys may carry

  function WithLength(v: Value, n: nat): Value
    requires IsLength(v)
  {
    if v.U32? then U32(n) else U64(n)
  }

  /** The same pair but for a context length in it. */
  predicate RevaluedPair(p: Pair, q: Pair) {
    if NamesContext(p) then q.key == p.key && IsLength(q.value) else q == p
  }

  /** The same keys and values, but for the lengths under keys that contain context_length. */
  predicate Revalued(ps: seq<Pair>, qs: seq<Pair>) {
    |qs| == |ps| && forall i | 0 <= i < |ps| :: RevaluedPair(ps[i], qs[i])
  }

  lemma {:induction false} RevaluedLeading(ps: seq<Pair>, qs: seq<Pair>)
    requires Revalued(ps, qs)
    ensures Revalued(Leading(ps), Leading(qs))
    decreases |ps|
  {
    if ps != [] {
      assert RevaluedPair(ps[0], qs[0]);
      forall i | 0 <= i < |ps[1..]| ensures RevaluedPair(ps[1..][i], qs[1..][i]) {
        assert RevaluedPair(ps[i + 1], qs[i + 1]);
      }
      RevaluedLeading(ps[1..], qs[1..]);
    }
  }

  lemma {:induction false} RevaluedKeeps(ps: seq<Pair>, qs: seq<Pair>)
    requires Revalued(ps, qs)
    ensures LastArch(qs) == LastArch(ps)
    ensures LastNaming(qs).Some? <==> LastNaming(ps).Some?
    ensures LastNaming(ps).Some? ==> LastNaming(qs).value.key == LastNaming(ps).value.key
    decreases |ps|
  {
    if ps != [] {
      var n := |ps| - 1;
      assert RevaluedPair(ps[n], qs[n]);
      forall i | 0 <= i < n ensures RevaluedPair(ps[..n][i], qs[..n][i]) {
        assert RevaluedPair(ps[i], qs[i]);
      }
      RevaluedKeeps(ps[..n], qs[..n]);
    }
  }

  /** Every length under one key set to 1, every other context length to 2. */
  function Mark(p: Pair, key: Bytes): Pair {
    if NamesContext(p) then p.(value := WithLength(p.value, if p.key == key then 1 else 2)) else p
  }

  function Marked(ps: seq<Pair>, key: Bytes): seq<Pair> {
    seq(|ps|, i requires 0 <= i < |ps| => Mark(ps[i], key))
  }

  lemma MarkedRest(ps: seq<Pair>, key: Bytes)
    requires ps != []
    ensures Marked(ps, key)[1..] == Marked(ps[1..], key)
  {
  }

  lemma {:induction false} MarkedIsValid(ps: seq<Pair>, key: Bytes)
    requires ValidPairs(ps)
    ensures ValidPairs(Marked(ps, key)) && Revalued(ps, Marked(ps, key))
    decreases |ps|
  {
    if ps != [] {
      MarkedRest(ps, key);
      MarkedIsValid(ps[1..], key);
    }
  }

  lemma {:induction false} MarkedLeading(ps: seq<Pair>, key: Bytes)
    ensures Leading(Marked(ps, key)) == Marked(Leading(ps), key)
    decreases |ps|
  {
    if ps != [] {
      MarkedRest(ps, key);
      MarkedLeading(ps[1..], key);
    }
  }

  lemma {:induction false} MarkedLengths(ps: seq<Pair>, key: Bytes)
    requires Mentions(key, CONTEXT_NAME)
    ensures LastUnder(Marked(ps, key), key) <= 1
    ensures LastNaming(ps).Some? && LastNaming(ps).value.key != key ==> LastContext(Marked(ps, key)) == 2
    decreases |ps|
  {
    if ps != [] {
      var front := ps[..|ps| - 1];
      MarkedLengths(front, key);
      assert Marked(ps, key)[..|ps| - 1] == Marked(front, key);
      assert Marked(ps, key)[|ps| - 1] == Mark(ps[|ps| - 1], key);
    }
  }

  /** The parser answers the length under the documented key. */
  ghost predicate AnswersDocumented(version: nat, tensors: nat, ps: seq<Pair>, rest: Bytes)
    requires ValidPairs(ps) && Fits(|ps|)
  {
    Parse(Encode(version, tensors, ps, rest)).0.ctxLen == LastUnder(Leading(ps), DocumentedKey(LastArch(Leading(ps))))
  }

  lemma MarkedFails(version: nat, tensors: nat, ps: seq<Pair>, rest: Bytes)
    requires ValidPairs(ps) && Fits(|ps|) && LastNaming(Leading(ps)).Some?
    requires LastNaming(Leading(ps)).value.key != DocumentedKey(LastArch(Leading(ps)))
    ensures var qs := Marked(ps, DocumentedKey(LastArch(Leading(ps))));
            ValidPairs(qs) && Revalued(ps, qs) && !AnswersDocumented(version, tensors, qs, rest)
  {
    var key := DocumentedKey(LastArch(Leading(ps)));
    var qs := Marked(ps, key);
    MarkedIsValid(ps, key);
    MarkedLeading(ps, key);
    RevaluedLeading(ps, qs);
    RevaluedKeeps(Leading(ps), Leading(qs));
    DocumentedKeyNames(LastArch(Leading(ps)));
    MarkedLengths(Leading(ps), key);
    ParseInvertsEncode(version, tensors, qs, rest);
  }

  /**
    For given keys, the parser answers the documented length whatever the lengths are exactly when no key
    before the tokenizer contains context_length, or the last that does is the documented one.
   */
  lemma KeysDecideExactly(version: nat, tensors: nat, ps: seq<Pair>, rest: Bytes)
    requires ValidPairs(ps) && Fits(|ps|)
    ensures (forall qs | ValidPairs(qs) && Revalued(ps, qs) :: AnswersDocumented(version, tensors, qs, rest)) <==>
            var last := LastNaming(Leading(ps));
            last.None? || last.value.key == DocumentedKey(LastArch(Leading(ps)))
  {
    var last := LastNaming(Leading(ps));
    if last.None? || last.value.key == DocumentedKey(LastArch(Leading(ps))) {
      forall qs | ValidPairs(qs) && Revalued(ps, qs) ensures AnswersDocumented(version, tensors, qs, rest) {
        RevaluedLeading(ps, qs);
        RevaluedKeeps(Leading(ps), Leading(qs));
        ContextIsDocumentedExactly(version, tensors, qs, rest);
      }
    } else {
      MarkedFails(version, tensors, ps, rest);
    }
  }

  lemma AsciiJoins(a: string, b: string)
    ensures Ascii(a + b) == Ascii(a) + Ascii(b)
  {
  }

  /** A model trained at one length and stretched by rope scaling names both, in this order. */
  function StretchedPairs(trained: nat, original: nat): seq<Pair> {
    [Pair(Ascii("general.architecture"), Text(Ascii("llama"))),
     Pair(Ascii("llama.context_length"), U32(trained)),
     Pair(Ascii("llama.rope.scaling.original_context_length"), U32(original))]
  }

  lemma StretchedKeys()
    ensures Ascii("llama.context_length") == DocumentedKey(Ascii("llama"))
    ensures Ascii("llama.rope.scaling.original_context_length") == Ascii("llama.rope.scaling.original_") + CONTEXT_NAME
    ensures Ascii("llama.rope.scaling.original_context_length") != Ascii("llama.context_length")
  {
    assert "llama.context_length" == "llama" + "." + "context_length";
    AsciiJoins("llama" + ".", "context_length");
    AsciiJoins("llama", ".");
    assert "llama.rope.scaling.original_context_length" == "llama.rope.scaling.original_" + "context_length";
    AsciiJoins("llama.rope.scaling.original_", "context_length");
    assert |Ascii("llama.rope.scaling.original_context_length")| != |Ascii("llama.context_length")|;
  }

  lemma NotTokenizer(key: Bytes)
    requires key != [] && key[0] != Ascii("t")[0]
    ensures !OpensVocabulary(key)
  {
    assert Ascii("tokenizer.")[0] == Ascii("t")[0];
  }

  lemma StretchedNames(trained: nat, original: nat)
    ensures var ps := StretchedPairs(trained, original);
      NamesContext(ps[1]) && NamesContext(ps[2]) && !NamesArch(ps[1]) && !NamesArch(ps[2])
  {
    var ps := StretchedPairs(trained, original);
    StretchedKeys();
    DocumentedKeyNames(Ascii("llama"));
    var prefix := Ascii("llama.rope.scaling.original_");
    assert StandsAt(prefix + CONTEXT_NAME, CONTEXT_NAME, |prefix|);
    MentionsExactly(prefix + CONTEXT_NAME, CONTEXT_NAME);
  }

  lemma StretchedHolds(trained: nat, original: nat)
    ensures var ps := StretchedPairs(trained, original);
      && LastArch(ps) == Ascii("llama") && LastContext(ps) == original
      && LastUnder(ps, DocumentedKey(Ascii("llama"))) == trained
  {
    var ps := StretchedPairs(trained, original);
    StretchedKeys();
    StretchedNames(trained, original);
    assert ps[..2][..1] == [ps[0]] && ps[..1] == [ps[0]];
    assert LastArch(ps) == LastArch(ps[..2]) == LastArch(ps[..2][..1]);
    assert LastUnder(ps, DocumentedKey(Ascii("llama"))) == LastUnder(ps[..2], DocumentedKey(Ascii("llama")));
  }

  /** On that standard pair of keys the parser answers the original length, not the documented one. */
  lemma StretchedModelAnswersTheWrongKey(version: nat, tensors: nat, trained: nat, original: nat, rest: Bytes)
    requires trained < 0x1_0000_0000 && original < 0x1_0000_0000
    ensures var ps := StretchedPairs(trained, original);
      && Parse(Encode(version, tensors, ps, rest)) == (Header(Ascii("llama"), original), None)
      && LastUnder(Leading(ps), DocumentedKey(Ascii("llama"))) == trained
  {
    StretchedLeads(trained, original);
    StretchedHolds(trained, original);
    ParseInvertsEncode(version, tensors, StretchedPairs(trained, original), rest);
  }

  lemma StretchedLeads(trained: nat, original: nat)
    requires trained < 0x1_0000_0000 && original < 0x1_0000_0000
    ensures var ps := StretchedPairs(trained, original); Leading(ps) == ps && ValidPairs(ps)
  {
    var ps := StretchedPairs(trained, original);
    NotTokenizer(ps[0].key);
    NotTokenizer(ps[1].key);
    NotTokenizer(ps[2].key);
    assert ps[1..] == [ps[1], ps[2]] && ps[1..][1..] == [ps[2]] && ps[1..][1..][1..] == [];
    assert Leading(ps[1..][1..]) == [ps[2]];
    assert Leading(ps[1..]) == [ps[1], ps[2]];
    assert ValidPairs(ps[1..][1..]);
    assert ValidPairs(ps[1..]);
  }
}
