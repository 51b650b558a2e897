/**
  The GGUF metadata parser over a window of a model file: its result as a function of the bytes,
  and the loops over offsets that compute it. Lengths and offsets are unbounded integers.
 */
module GgufHeader {
  import opened Wrappers
  import opened Octets

  const STRING := 8
  const ARRAY := 9
  const UINT32 := 4
  const UINT64 := 10

  /** Scalar widths by value type; string and array have their own rules. */
  const TYPE_SIZES: seq<nat> := [1, 1, 2, 2, 4, 4, 4, 1, 8, 4, 8, 8, 8]

  const MAGIC := Ascii("GGUF")
  const ARCHITECTURE := Ascii("general.architecture")
  const CONTEXT_LENGTH := Ascii("context_length")
  const TOKENIZER := Ascii("tokenizer.")

  predicate IsTokenizer(key: Bytes) {
    TOKENIZER <= key
  }

  predicate StandsAt(s: Bytes, sub: Bytes, i: nat) {
    i + |sub| <= |s| && s[i..i + |sub|] == sub
  }

  /** strings.Contains */
  predicate Contains(s: Bytes, sub: Bytes) {
    exists i :: 0 <= i <= |s| && StandsAt(s, sub, i)
  }

  datatype Header = Header(arch: Bytes, ctxLen: int)

  datatype ParseError = NotGguf | Truncated

  /** binary.LittleEndian over the whole of its argument. */
  function Little(bs: Bytes): nat {
    if bs == [] then 0 else bs[0] + 256 * Little(bs[1..])
  }

  /** int64(v) of a uint64 */
  function ToInt64(v: nat): int {
    if v < 0x8000_0000_0000_0000 then v else v - 0x1_0000_0000_0000_0000
  }

  function Width(vt: nat): nat {
    if vt < |TYPE_SIZES| then TYPE_SIZES[vt] else 8
  }

  // The parser as a function of what is left to read

  /** What is left of the data; an offset may also have been moved past its end. */
  datatype Cursor = Left(t: Bytes) | Past

  function Advance(t: Bytes, w: nat): Cursor {
    if w <= |t| then Left(t[w..]) else Past
  }

  function ReadUint(t: Bytes, width: nat): Option<(nat, Bytes)> {
    if |t| < width then None else Some((Little(t[..width]), t[width..]))
  }

  function ReadString(t: Bytes): (r: Option<(Bytes, Bytes)>)
    ensures r.Some? ==> |r.value.1| + 8 <= |t|
  {
    match ReadUint(t, 8)
    case None => None
    case Some(n) => if |n.1| < n.0 then None else Some((n.1[..n.0], n.1[n.0..]))
  }

  function SkipStrings(t: Bytes, count: nat): (r: Option<Bytes>)
    decreases count
  {
    if count == 0 then Some(t)
    else match ReadString(t)
      case None => None
      case Some(s) => SkipStrings(s.1, count - 1)
  }

  /** Scalars and scalar arrays are stepped over without looking whether the data holds them. */
  function Skip(t: Bytes, vt: nat): Option<Cursor> {
    if vt == STRING then
      match ReadString(t)
      case None => None
      case Some(s) => Some(Left(s.1))
    else if vt == ARRAY then SkipArray(t)
    else Some(Advance(t, Width(vt)))
  }

  function SkipArray(t: Bytes): Option<Cursor> {
    match ReadUint(t, 4)
    case None => None
    case Some(at) =>
      match ReadUint(at.1, 8)
      case None => None
      case Some(count) =>
        if at.0 == STRING then
          match SkipStrings(count.1, count.0)
          case None => None
          case Some(rest) => Some(Left(rest))
        else Some(Advance(count.1, count.0 * Width(at.0)))
  }

  function ReadValue(t: Bytes, vt: nat, key: Bytes, h: Header): Option<(Header, Cursor)> {
    if vt == UINT32 then
      match ReadUint(t, 4)
      case None => None
      case Some(v) => Some((if Contains(key, CONTEXT_LENGTH) then h.(ctxLen := v.0) else h, Left(v.1)))
    else if vt == STRING then
      match ReadString(t)
      case None => None
      case Some(s) => Some((if key == ARCHITECTURE then h.(arch := s.0) else h, Left(s.1)))
    else if vt == UINT64 then
      match ReadUint(t, 8)
      case None => None
      case Some(v) => Some((if Contains(key, CONTEXT_LENGTH) then h.(ctxLen := ToInt64(v.0)) else h, Left(v.1)))
    else
      match Skip(t, vt)
      case None => None
      case Some(c) => Some((h, c))
  }

  /** The key and value type in front of a value. */
  function ReadKey(t: Bytes): Option<(Bytes, nat, Bytes)> {
    match ReadString(t)
    case None => None
    case Some(s) =>
      match ReadUint(s.1, 4)
      case None => None
      case Some(vt) => Some((s.0, vt.0, vt.1))
  }

  /** How one round of the loop ends: on a read that fails, on the tokenizer, or with a pair taken in. */
  datatype Round = Fail | Stop | Next(c: Cursor, h: Header)

  function ReadRound(t: Bytes, h: Header): Round {
    match ReadKey(t)
    case None => Fail
    case Some(k) =>
      if IsTokenizer(k.0) then Stop
      else match ReadValue(k.2, k.1, k.0, h)
        case None => Fail
        case Some(v) => Next(v.1, v.0)
  }

  type Reader = (Bytes, Header) -> Round

  /** The loop, over any way to read a round. */
  function Loop(read: Reader, c: Cursor, left: nat, h: Header): (Header, Option<ParseError>)
    decreases left
  {
    if left == 0 then (h, None)
    else if c.Past? then (h, Some(Truncated))
    else match read(c.t, h)
      case Fail => (h, Some(Truncated))
      case Stop => (h, None)
      case Next(c', h') => Loop(read, c', left - 1, h')
  }

  function Parse(data: Bytes): (Header, Option<ParseError>) {
    if |data| < 24 || data[..4] != MAGIC then (Header([], 0), Some(NotGguf))
    else Loop(ReadRound, Left(data[24..]), Little(data[16..24]), Header([], 0))
  }

  // What a parse costs: the strings it reads

  function StringReadsOf(t: Bytes, count: nat): nat
    decreases count
  {
    if count == 0 then 0
    else match ReadString(t)
      case None => 1
      case Some(s) => 1 + StringReadsOf(s.1, count - 1)
  }

  function ArrayReads(t: Bytes): nat {
    match ReadUint(t, 4)
    case None => 0
    case Some(at) =>
      match ReadUint(at.1, 8)
      case None => 0
      case Some(count) => if at.0 == STRING then StringReadsOf(count.1, count.0) else 0
  }

  /** String reads made for one value. */
  function ValueReads(t: Bytes, vt: nat): nat {
    if vt == STRING then 1 else if vt == ARRAY then ArrayReads(t) else 0
  }

  /** String reads made in one round: one for the key, and those its value needs. */
  function RoundReads(t: Bytes, h: Header): nat {
    match ReadKey(t)
    case None => 1
    case Some(k) => if IsTokenizer(k.0) then 1 else 1 + ValueReads(k.2, k.1)
  }

  /** The cost of a whole loop, summed over its rounds. */
  function Reads(read: Reader, cost: (Bytes, Header) -> nat, c: Cursor, left: nat, h: Header): nat
    decreases left
  {
    if left == 0 then 0
    else if c.Past? then 1
    else match read(c.t, h)
      case Next(c', h') => cost(c.t, h) + Reads(read, cost, c', left - 1, h')
      case _ => cost(c.t, h)
  }

  // The loops over offsets; each counts the strings it reads

  function CursorAt(data: Bytes, off: nat): Cursor {
    if off <= |data| then Left(data[off..]) else Past
  }

  /** The search strings.Contains makes. */
  method FindSub(s: Bytes, sub: Bytes) returns (found: bool)
    ensures found == Contains(s, sub)
  {
    var i: nat := 0;
    while i + |sub| <= |s|
      invariant forall j: nat :: j < i ==> !StandsAt(s, sub, j)
      decreases |s| - i
    {
      if s[i..i + |sub|] == sub {
        assert StandsAt(s, sub, i);
        return true;
      }
      i := i + 1;
    }
    found := false;
  }

  method GgufUint(data: Bytes, off: nat, width: nat) returns (r: Option<nat>)
    ensures off <= |data| ==> r == if ReadUint(data[off..], width).None? then None else Some(ReadUint(data[off..], width).value.0)
    ensures r.Some? ==> off + width <= |data| && ReadUint(data[off..], width) == Some((r.value, data[off + width..]))
    ensures off > |data| ==> r.None? || width == 0
  {
    if off + width > |data| {
      return None;
    }
    assert data[off..][..width] == data[off..off + width] && data[off..][width..] == data[off + width..];
    r := Some(Little(data[off..off + width]));
  }

  method GgufString(data: Bytes, off: nat) returns (r: Option<(Bytes, nat)>)
    ensures r.None? ==> off > |data| || ReadString(data[off..]).None?
    ensures r.Some? ==> off <= r.value.1 <= |data| && ReadString(data[off..]) == Some((r.value.0, data[r.value.1..]))
  {
    var n := GgufUint(data, off, 8);
    if n.None? {
      return None;
    }
    var start := off + 8;
    if start + n.value > |data| {
      return None;
    }
    assert data[start..][..n.value] == data[start..start + n.value];
    assert data[start..][n.value..] == data[start + n.value..];
    r := Some((data[start..start + n.value], start + n.value));
  }

  lemma AdvanceAt(data: Bytes, off: nat, w: nat)
    requires off <= |data|
    ensures CursorAt(data, off + w) == Advance(data[off..], w)
  {
    if w <= |data| - off { assert data[off..][w..] == data[off + w..]; }
  }

  method GgufSkipStrings(data: Bytes, start: nat, count: nat) returns (r: Option<nat>, ghost spent: nat)
    requires start <= |data|
    ensures spent == StringReadsOf(data[start..], count)
    ensures r.None? ==> SkipStrings(data[start..], count).None?
    ensures r.Some? ==> r.value <= |data| && SkipStrings(data[start..], count) == Some(data[r.value..])
  {
    var off: nat, i := start, 0;
    spent := 0;
    while i < count
      invariant 0 <= i <= count && off <= |data|
      invariant SkipStrings(data[start..], count) == SkipStrings(data[off..], count - i)
      invariant StringReadsOf(data[start..], count) == spent + StringReadsOf(data[off..], count - i)
    {
      var s := GgufString(data, off);
      spent := spent + 1;
      if s.None? {
        return None, spent;
      }
      off := s.value.1;
      i := i + 1;
    }
    r := Some(off);
  }

  method GgufSkip(data: Bytes, start: nat, vt: nat) returns (r: Option<nat>, ghost spent: nat)
    requires start <= |data|
    ensures spent == ValueReads(data[start..], vt)
    ensures r.None? ==> Skip(data[start..], vt).None?
    ensures r.Some? ==> Skip(data[start..], vt) == Some(CursorAt(data, r.value))
  {
    if vt == STRING {
      var s := GgufString(data, start);
      return (if s.Some? then Some(s.value.1) else None), 1;
    }
    if vt == ARRAY {
      var at := GgufUint(data, start, 4);
      if at.None? {
        return None, 0;
      }
      var count := GgufUint(data, start + 4, 8);
      if count.None? {
        return None, 0;
      }
      var off: nat := start + 12;
      if at.value == STRING {
        r, spent := GgufSkipStrings(data, off, count.value);
        return;
      }
      var width: nat := count.value * Width(at.value);
      AdvanceAt(data, off, width);
      return Some(off + width), 0;
    }
    AdvanceAt(data, start, Width(vt));
    return Some(start + Width(vt)), 0;
  }

  /** The switch over the value type. */
  method ReadPairValue(data: Bytes, start: nat, vt: nat, key: Bytes, h: Header)
    returns (arch: Bytes, ctxLen: int, off: nat, e: Option<ParseError>, ghost spent: nat)
    requires start <= |data|
    ensures spent == ValueReads(data[start..], vt)
    ensures e.None? ==> ReadValue(data[start..], vt, key, h) == Some((Header(arch, ctxLen), CursorAt(data, off)))
    ensures e.Some? ==> ReadValue(data[start..], vt, key, h).None? && Header(arch, ctxLen) == h && e == Some(Truncated)
  {
    arch, ctxLen, off, e, spent := h.arch, h.ctxLen, start, None, 0;
    if vt == UINT32 || vt == UINT64 {
      var width := if vt == UINT32 then 4 else 8;
      var v := GgufUint(data, off, width);
      if v.None? {
        return arch, ctxLen, off, Some(Truncated), spent;
      }
      off := off + width;
      var about := FindSub(key, CONTEXT_LENGTH);
      if about {
        ctxLen := if vt == UINT32 then v.value else ToInt64(v.value);
      }
    } else if vt == STRING {
      var v := GgufString(data, off);
      spent := 1;
      if v.None? {
        return arch, ctxLen, off, Some(Truncated), spent;
      }
      off := v.value.1;
      if key == ARCHITECTURE {
        arch := v.value.0;
      }
    } else {
      var next;
      next, spent := GgufSkip(data, off, vt);
      if next.None? {
        return arch, ctxLen, off, Some(Truncated), spent;
      }
      off := next.value;
    }
  }

  /** The key and value type at the front of a pair. */
  method GgufKey(data: Bytes, start: nat) returns (r: Option<(Bytes, nat, nat)>)
    requires start <= |data|
    ensures r.None? ==> ReadKey(data[start..]).None?
    ensures r.Some? ==> r.value.2 <= |data| && ReadKey(data[start..]) == Some((r.value.0, r.value.1, data[r.value.2..]))
  {
    var key := GgufString(data, start);
    if key.None? {
      return None;
    }
    var vt := GgufUint(data, key.value.1, 4);
    if vt.None? {
      return None;
    }
    r := Some((key.value.0, vt.value, key.value.1 + 4));
  }

  /** The body of the loop. */
  method ReadPair(data: Bytes, start: nat, h: Header) returns (round: Round, off: nat, ghost spent: nat)
    requires start <= |data|
    ensures round == ReadRound(data[start..], h)
    ensures spent == RoundReads(data[start..], h)
    ensures round.Next? ==> round.c == CursorAt(data, off)
  {
    off, spent := start, 1;
    var key := GgufKey(data, off);
    if key.None? {
      return Fail, off, spent;
    }
    off := key.value.2;
    if IsTokenizer(key.value.0) {
      return Stop, off, spent;
    }
    var arch, ctxLen, next, e, more := ReadPairValue(data, off, key.value.1, key.value.0, h);
    spent := spent + more;
    if e.Some? {
      return Fail, off, spent;
    }
    return Next(CursorAt(data, next), Header(arch, ctxLen)), next, spent;
  }

  lemma LoopOnce(read: Reader, cost: (Bytes, Header) -> nat, t: Bytes, left: nat, h: Header)
    requires left > 0
    ensures Loop(read, Left(t), left, h) ==
      match read(t, h)
      case Fail => (h, Some(Truncated))
      case Stop => (h, None)
      case Next(c', h') => Loop(read, c', left - 1, h')
    ensures Reads(read, cost, Left(t), left, h) ==
      cost(t, h) + (match read(t, h) case Next(c', h') => Reads(read, cost, c', left - 1, h') case _ => 0)
  {
  }

  /** One round, as any reader and cost that agree with ReadRound and RoundReads see it. */
  method ReadPairAs(data: Bytes, start: nat, h: Header, ghost read: Reader, ghost cost: (Bytes, Header) -> nat)
    returns (round: Round, off: nat, ghost spent: nat)
    requires start <= |data|
    requires forall t, h {:trigger ReadRound(t, h)} :: read(t, h) == ReadRound(t, h)
    requires forall t, h {:trigger RoundReads(t, h)} :: cost(t, h) == RoundReads(t, h)
    ensures round == read(data[start..], h) && spent == cost(data[start..], h)
    ensures round.Next? ==> round.c == CursorAt(data, off)
  {
    round, off, spent := ReadPair(data, start, h);
  }

  /** The loop itself: it ends on the declared count, on the tokenizer, or on a read that fails. */
  method ReadPairs(data: Bytes, kvCount: nat, ghost read: Reader, ghost cost: (Bytes, Header) -> nat)
    returns (h: Header, e: Option<ParseError>, ghost spent: nat)
    requires |data| >= 24
    requires forall t, h {:trigger ReadRound(t, h)} :: read(t, h) == ReadRound(t, h)
    requires forall t, h {:trigger RoundReads(t, h)} :: cost(t, h) == RoundReads(t, h)
    ensures (h, e) == Loop(read, Left(data[24..]), kvCount, Header([], 0))
    ensures spent == Reads(read, cost, Left(data[24..]), kvCount, Header([], 0))
  {
    h, spent := Header([], 0), 0;
    var off: nat, i := 24, 0;
    ghost var c := Left(data[24..]);
    while i < kvCount
      invariant 0 <= i <= kvCount && c == CursorAt(data, off)
      invariant Loop(read, Left(data[24..]), kvCount, Header([], 0)) == Loop(read, c, kvCount - i, h)
      invariant Reads(read, cost, Left(data[24..]), kvCount, Header([], 0)) == spent + Reads(read, cost, c, kvCount - i, h)
    {
      if off > |data| {
        return h, Some(Truncated), spent + 1;
      }
      LoopOnce(read, cost, c.t, kvCount - i, h);
      var round, next, more := ReadPairAs(data, off, h, read, cost);
      spent := spent + more;
      match round {
        case Fail => return h, Some(Truncated), spent;
        case Stop => return h, None, spent;
        case Next(_, h') => h := h';
      }
      c := round.c;
      off := next;
      i := i + 1;
    }
    e := None;
  }

  method ParseGGUFHeader(data: Bytes) returns (arch: Bytes, ctxLen: int, e: Option<ParseError>, ghost spent: nat)
    ensures (Header(arch, ctxLen), e) == Parse(data)
    ensures spent == if e == Some(NotGguf) then 0
                     else Reads(ReadRound, RoundReads, Left(data[24..]), Little(data[16..24]), Header([], 0))
  {
    if |data| < 24 || data[..4] != MAGIC {
      return [], 0, Some(NotGguf), 0;
    }
    var kvCount := Little(data[16..24]);
    var h;
    h, e, spent := ReadPairs(data, kvCount, ReadRound, RoundReads);
    LoopSaysTruncated(ReadRound, Left(data[24..]), kvCount, Header([], 0));
    arch, ctxLen := h.arch, h.ctxLen;
  }

  lemma {:induction false} LoopSaysTruncated(read: Reader, c: Cursor, left: nat, h: Header)
    ensures Loop(read, c, left, h).1 != Some(NotGguf)
    decreases left
  {
    if left > 0 && c.Left? && read(c.t, h).Next? {
      LoopSaysTruncated(read, read(c.t, h).c, left - 1, read(c.t, h).h);
    }
  }
}
