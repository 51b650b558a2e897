/**
  A GGUF file as the specification lays it out (section "File Structure"), without nested arrays: the
  types by their numbers and sizes, the encoding, and what a reader is to find in the metadata.
 */
module GgufFormat {
  import opened Octets

  // Every part is written in front of what follows it

  /** The scalar types, string and array aside. */
  datatype Kind = Uint8 | Int8 | Uint16 | Int16 | Uint32 | Int32 | Float32 | Bool | Uint64 | Int64 | Float64

  /** The number a type goes by in a file. */
  function Code(kind: Kind): nat {
    match kind
    case Uint8 => 0 case Int8 => 1 case Uint16 => 2 case Int16 => 3 case Uint32 => 4 case Int32 => 5
    case Float32 => 6 case Bool => 7 case Uint64 => 10 case Int64 => 11 case Float64 => 12
  }

  /** How many bytes a value of it takes. */
  function Size(kind: Kind): nat {
    match kind
    case Uint8 => 1 case Int8 => 1 case Bool => 1
    case Uint16 => 2 case Int16 => 2
    case Uint32 => 4 case Int32 => 4 case Float32 => 4
    case Uint64 => 8 case Int64 => 8 case Float64 => 8
  }

  datatype Value =
    | U32(v: nat)
    | U64(v: nat)
    | Scalar(kind: Kind, raw: Bytes)
    | Text(s: Bytes)
    | Scalars(kind: Kind, count: nat, raw: Bytes)
    | Texts(ss: seq<Bytes>)

  datatype Pair = Pair(key: Bytes, value: Value)

  function Pow256(n: nat): nat {
    if n == 0 then 1 else 256 * Pow256(n - 1)
  }

  function LE(v: nat, width: nat): (r: Bytes)
    ensures |r| == width
  {
    if width == 0 then [] else [v % 256] + LE(v / 256, width - 1)
  }

  function EncUint(v: nat, width: nat, tail: Bytes): Bytes {
    LE(v, width) + tail
  }

  function EncString(s: Bytes, tail: Bytes): Bytes {
    EncUint(|s|, 8, s + tail)
  }

  function EncStrings(ss: seq<Bytes>, tail: Bytes): Bytes {
    if ss == [] then tail else EncString(ss[0], EncStrings(ss[1..], tail))
  }

  function TypeOf(v: Value): nat {
    match v
    case U32(_) => 4
    case U64(_) => 10
    case Scalar(kind, _) => Code(kind)
    case Text(_) => 8
    case Scalars(_, _, _) => 9
    case Texts(_) => 9
  }

  function EncValue(v: Value, tail: Bytes): Bytes {
    match v
    case U32(n) => EncUint(n, 4, tail)
    case U64(n) => EncUint(n, 8, tail)
    case Scalar(_, raw) => raw + tail
    case Text(s) => EncString(s, tail)
    case Scalars(kind, count, raw) => EncUint(Code(kind), 4, EncUint(count, 8, raw + tail))
    case Texts(ss) => EncUint(8, 4, EncUint(|ss|, 8, EncStrings(ss, tail)))
  }

  /** The elements of an array of arrays: each one a type, a count and its own elements. */
  function EncArrays(vs: seq<Value>, tail: Bytes): Bytes {
    if vs == [] then tail else EncValue(vs[0], EncArrays(vs[1..], tail))
  }

  function EncKey(p: Pair, tail: Bytes): Bytes {
    EncString(p.key, EncUint(TypeOf(p.value), 4, tail))
  }

  function EncPairs(ps: seq<Pair>, tail: Bytes): Bytes {
    if ps == [] then tail else EncKey(ps[0], EncValue(ps[0].value, EncPairs(ps[1..], tail)))
  }

  function Framed(version: nat, tensors: nat, count: nat, tail: Bytes): Bytes {
    ['G' as int, 'G' as int, 'U' as int, 'F' as int] + EncUint(version, 4, EncUint(tensors, 8, EncUint(count, 8, tail)))
  }

  /** A file: header, metadata, and the tensor infos and data that follow. */
  function Encode(version: nat, tensors: nat, ps: seq<Pair>, rest: Bytes): Bytes {
    Framed(version, tensors, |ps|, EncPairs(ps, rest))
  }

  /** A length a Go int can hold. */
  predicate Fits(n: nat) {
    n < 0x8000_0000_0000_0000
  }

  predicate ValidValue(v: Value) {
    match v
    case U32(n) => n < 0x1_0000_0000
    case U64(n) => n < 0x1_0000_0000_0000_0000
    case Scalar(kind, raw) => !kind.Uint32? && !kind.Uint64? && |raw| == Size(kind)
    case Text(s) => Fits(|s|)
    case Scalars(kind, count, raw) => Fits(count) && |raw| == count * Size(kind)
    case Texts(ss) => Fits(|ss|) && forall s :: s in ss ==> Fits(|s|)
  }

  predicate ValidPair(p: Pair) {
    Fits(|p.key|) && ValidValue(p.value)
  }

  predicate ValidPairs(ps: seq<Pair>) {
    ps == [] || (ValidPair(ps[0]) && ValidPairs(ps[1..]))
  }

  /** A key of the tokenizer's, which come after the model's own. */
  predicate OpensVocabulary(key: Bytes) {
    Ascii("tokenizer.") <= key
  }

  predicate Mentions(key: Bytes, name: Bytes) {
    name <= key || (key != [] && Mentions(key[1..], name))
  }

  const CONTEXT_NAME := Ascii("context_length")

  /** The pairs before the first tokenizer key. */
  function Leading(ps: seq<Pair>): seq<Pair> {
    if ps == [] || OpensVocabulary(ps[0].key) then [] else [ps[0]] + Leading(ps[1..])
  }

  predicate NamesArch(p: Pair) {
    p.key == Ascii("general.architecture") && p.value.Text?
  }

  predicate NamesContext(p: Pair) {
    Mentions(p.key, CONTEXT_NAME) && (p.value.U32? || p.value.U64?)
  }

  function ContextOf(v: Value): int
    requires v.U32? || v.U64?
  {
    if v.U64? && v.v >= 0x8000_0000_0000_0000 then v.v - 0x1_0000_0000_0000_0000 else v.v
  }

  /** The last architecture string among some pairs. */
  function LastArch(ps: seq<Pair>): Bytes {
    if ps == [] then []
    else if NamesArch(ps[|ps| - 1]) then ps[|ps| - 1].value.s
    else LastArch(ps[..|ps| - 1])
  }

  /** The last context length among some pairs, as the int64 it is stored in. */
  function LastContext(ps: seq<Pair>): int {
    if ps == [] then 0
    else if NamesContext(ps[|ps| - 1]) then ContextOf(ps[|ps| - 1].value)
    else LastContext(ps[..|ps| - 1])
  }

  /** The bytes a parse has to see: all pairs, or those up to the first tokenizer key and its type. */
  function NeededPairs(ps: seq<Pair>): Bytes {
    if ps == [] then []
    else if OpensVocabulary(ps[0].key) then EncKey(ps[0], [])
    else EncKey(ps[0], EncValue(ps[0].value, NeededPairs(ps[1..])))
  }
}
