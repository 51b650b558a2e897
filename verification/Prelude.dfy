/** Option and Result, used for the source's nil answers and error returns. */
module Wrappers {
  datatype Option<+T> = None | Some(value: T)

  datatype Result<+T, +E> = Success(value: T) | Failure(error: E)
}

/** The few string operations of Go's standard library the hub relies on. */
module Text {
  /** unicode.IsSpace: the characters that strings.Fields and strings.TrimSpace split on. */
  predicate IsSpace(c: char) {
    || '\U{0009}' <= c <= '\U{000d}'
    || c == ' ' || c == '\U{0085}' || c == '\U{00a0}' || c == '\U{1680}'
    || '\U{2000}' <= c <= '\U{200a}'
    || c == '\U{2028}' || c == '\U{2029}' || c == '\U{202f}' || c == '\U{205f}' || c == '\U{3000}'
  }

  function TrimLeft(s: string): (r: string)
    ensures |r| <= |s|
  {
    if s != "" && IsSpace(s[0]) then TrimLeft(s[1..]) else s
  }

  function TrimRight(s: string): string {
    if s != "" && IsSpace(s[|s| - 1]) then TrimRight(s[..|s| - 1]) else s
  }

  /** strings.TrimSpace */
  function Trim(s: string): string {
    TrimRight(TrimLeft(s))
  }

  predicate HasPrefix(s: string, prefix: string) {
    prefix <= s
  }

  /** Byte-wise order of two strings: the order of slices.Sort and of SQL's ORDER BY on text. */
  predicate Less(a: string, b: string) {
    if b == "" then false
    else if a == "" then true
    else if a[0] != b[0] then a[0] < b[0]
    else Less(a[1..], b[1..])
  }

  lemma {:induction false} LessTotal(a: string, b: string)
    ensures a == b || Less(a, b) || Less(b, a)
    ensures !(Less(a, b) && Less(b, a))
    ensures !Less(a, a)
  {
    if a != "" {
      LessTotal(a[1..], a[1..]);
      if b != "" && a[0] == b[0] {
        LessTotal(a[1..], b[1..]);
        if a[1..] == b[1..] {
          assert a == [a[0]] + a[1..] == b;
        }
      }
    }
  }

  lemma {:induction false} LessTransitive(a: string, b: string, c: string)
    requires Less(a, b) && Less(b, c)
    ensures Less(a, c)
  {
    if a != "" && a[0] == b[0] == c[0] {
      LessTransitive(a[1..], b[1..], c[1..]);
    }
  }
}

/** Rows in the order of an integer column and then of their ids: ORDER BY column ASC, id ASC. */
module RowOrder {
  import opened Text

  predicate Before(key: map<string, int>, j: string, k: string)
    requires j in key && k in key
  {
    key[j] < key[k] || (key[j] == key[k] && Less(j, k))
  }

  predicate IsFirst(key: map<string, int>, ks: set<string>, k: string)
    requires ks <= key.Keys
  {
    k in ks && forall j :: j in ks && j != k ==> Before(key, k, j)
  }

  lemma BeforeTransitive(key: map<string, int>, a: string, b: string, c: string)
    requires {a, b, c} <= key.Keys && Before(key, a, b) && Before(key, b, c)
    ensures Before(key, a, c)
  {
    if key[a] == key[b] == key[c] {
      LessTransitive(a, b, c);
    }
  }

  lemma {:induction false} FirstExists(key: map<string, int>, ks: set<string>)
    requires ks != {} && ks <= key.Keys
    ensures exists k :: IsFirst(key, ks, k)
    decreases |ks|
  {
    var a :| a in ks;
    var rest := ks - {a};
    if rest == {} {
      assert forall j :: j in ks && j != a ==> j in rest;
      assert IsFirst(key, ks, a);
    } else {
      FirstExists(key, rest);
      var b :| IsFirst(key, rest, b);
      LessTotal(a, b);
      if Before(key, a, b) {
        forall j | j in ks && j != a ensures Before(key, a, j) {
          if j != b { BeforeTransitive(key, a, b, j); }
        }
        assert IsFirst(key, ks, a);
      } else {
        forall j | j in ks && j != b ensures Before(key, b, j) {
          if j != a { assert j in rest; }
        }
        assert IsFirst(key, ks, b);
      }
    }
  }

  /** LIMIT 1 */
  function First(key: map<string, int>, ks: set<string>): (k: string)
    requires ks != {} && ks <= key.Keys
    ensures IsFirst(key, ks, k)
  {
    FirstExists(key, ks);
    assert forall a, b :: IsFirst(key, ks, a) && IsFirst(key, ks, b) ==> a == b by {
      forall a, b | IsFirst(key, ks, a) && IsFirst(key, ks, b) ensures a == b {
        LessTotal(a, b);
      }
    }
    var k :| IsFirst(key, ks, k);
    k
  }
}

/** The clock is in nanoseconds; the tables store Unix seconds. */
module Clock {
  const SECOND := 1_000_000_000

  /** time.Time.Unix: the second an instant falls in. */
  function Unix(t: int): int {
    t / SECOND
  }

  lemma UnixMonotone(a: int, b: int)
    requires a <= b
    ensures Unix(a) <= Unix(b)
  {
  }

  lemma UnixShift(a: int, seconds: int)
    ensures Unix(a + seconds * SECOND) == Unix(a) + seconds
  {
  }
}

/** Raw data, and the bytes of a plain text. */
module Octets {
  type Byte = x: int | 0 <= x < 256
  type Bytes = seq<Byte>

  function Ascii(s: string): Bytes {
    seq(|s|, i requires 0 <= i < |s| => (s[i] as int) % 256)
  }
}
