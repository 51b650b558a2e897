/** Scope lists as they are stored: parsed from text and printed back, sorted and without repeats. */
module Scopes {
  import opened Wrappers
  import opened Text
  import opened Membership

  datatype ScopeError = ScopeUnknown

  /** What a token may carry: the capabilities an organization role can hold. */
  const GRANTABLE: set<Capability> := ORG_MINIMUM.Keys

  // Sorted lists without repeats

  predicate Ascending(s: seq<string>) {
    forall i, j :: 0 <= i < j < |s| ==> Less(s[i], s[j])
  }

  function Elements(s: seq<string>): set<string> {
    set x | x in s
  }

  function Insert(s: seq<string>, x: string): (r: seq<string>)
    requires Ascending(s)
    ensures Ascending(r) && forall y :: y in r <==> y in s || y == x
  {
    if s == [] then [x]
    else if x == s[0] then s
    else
      LessTotal(x, s[0]);
      if Less(x, s[0]) then
        assert forall j :: 0 <= j < |s| ==> Less(x, s[j]) by {
          forall j | 0 <= j < |s| ensures Less(x, s[j]) {
            if j > 0 { LessTransitive(x, s[0], s[j]); }
          }
        }
        [x] + s
      else
        var rest := Insert(s[1..], x);
        assert forall j :: 0 <= j < |rest| ==> Less(s[0], rest[j]) by {
          forall j | 0 <= j < |rest| ensures Less(s[0], rest[j]) { assert rest[j] in rest; }
        }
        [s[0]] + rest
  }

  /** The sorted, duplicate-free list of what a list holds. */
  function Canon(cs: seq<string>): (r: seq<string>)
    ensures Ascending(r) && forall y :: y in r <==> y in cs
  {
    if cs == [] then []
    else
      assert forall y :: y in cs <==> y in cs[..|cs| - 1] || y == cs[|cs| - 1];
      Insert(Canon(cs[..|cs| - 1]), cs[|cs| - 1])
  }

  /** Two ascending lists of the same elements are the same list. */
  lemma {:induction false} AscendingUnique(a: seq<string>, b: seq<string>)
    requires Ascending(a) && Ascending(b) && forall y :: y in a <==> y in b
    ensures a == b
    decreases |a|
  {
    SameEmptiness(a, b);
    if a != [] {
      assert a[0] in b && b != [];
      assert b[0] in a;
      LessTotal(a[0], b[0]);
      LessTotal(b[0], b[0]);
      assert a[0] == b[0];
      forall y ensures y in a[1..] <==> y in b[1..] {
        TailElements(a, y);
        TailElements(b, y);
      }
      AscendingUnique(a[1..], b[1..]);
      assert a == [a[0]] + a[1..] && b == [b[0]] + b[1..];
    }
  }

  lemma SameEmptiness(a: seq<string>, b: seq<string>)
    requires forall y :: y in a <==> y in b
    ensures a == [] <==> b == []
  {
    if a != [] { assert a[0] in b; }
    if b != [] { assert b[0] in a; }
  }

  lemma TailElements(s: seq<string>, y: string)
    requires Ascending(s) && s != []
    ensures y in s[1..] <==> y in s && y != s[0]
  {
    LessTotal(s[0], s[0]);
    if y in s && y != s[0] {
      var i :| 0 <= i < |s| && s[i] == y;
      assert s[1..][i - 1] == y;
    }
  }

  // Words and text

  /** A word strings.Fields reads back whole. */
  predicate IsWord(w: string) {
    w != "" && forall i :: 0 <= i < |w| ==> !IsSpace(w[i])
  }

  function Join(parts: seq<string>): string {
    if parts == [] then ""
    else if |parts| == 1 then parts[0]
    else parts[0] + " " + Join(parts[1..])
  }

  /** The length of the run of non-space characters at the front. */
  function WordLength(s: string): (n: nat)
    ensures n <= |s| && (forall i :: 0 <= i < n ==> !IsSpace(s[i])) && (n < |s| ==> IsSpace(s[n]))
  {
    if s == "" || IsSpace(s[0]) then 0 else 1 + WordLength(s[1..])
  }

  /** strings.Fields */
  function Fields(s: string): (r: seq<string>)
    ensures forall w :: w in r ==> IsWord(w)
    decreases |s|
  {
    if s == "" then []
    else if IsSpace(s[0]) then Fields(s[1..])
    else
      var n := WordLength(s);
      [s[..n]] + Fields(s[n..])
  }

  lemma {:induction false} FieldsOfJoin(ws: seq<string>)
    requires forall w :: w in ws ==> IsWord(w)
    ensures Fields(Join(ws)) == ws
    decreases |ws|
  {
    if |ws| == 1 {
      WordEnds(ws[0], "");
      assert ws[0] + "" == ws[0];
      assert Fields("") == [];
    } else if |ws| > 1 {
      var rest := Join(ws[1..]);
      assert Join(ws) == ws[0] + (" " + rest);
      WordEnds(ws[0], " " + rest);
      assert (ws[0] + (" " + rest))[|ws[0]|..] == " " + rest;
      assert (" " + rest)[1..] == rest;
      FieldsOfJoin(ws[1..]);
    }
  }

  lemma {:induction false} WordEnds(w: string, tail: string)
    requires IsWord(w) && (tail == "" || IsSpace(tail[0]))
    ensures WordLength(w + tail) == |w| && (w + tail)[..|w|] == w
    decreases |w|
  {
    assert (w + tail)[0] == w[0];
    assert (w + tail)[1..] == w[1..] + tail;
    if |w| > 1 {
      WordEnds(w[1..], tail);
    }
  }

  // Printing and parsing

  function Format(cs: seq<Capability>): string {
    Join(Canon(cs))
  }

  function Parse(s: string): Result<seq<Capability>, ScopeError> {
    if exists f :: f in Fields(s) && f !in GRANTABLE then Failure(ScopeUnknown) else Success(Canon(Fields(s)))
  }

  /** Repeats are dropped in the order they are met. */
  function Deduped(cs: seq<string>): (r: seq<string>)
    ensures forall y :: y in r <==> y in cs
  {
    if cs == [] then []
    else
      var front, x := Deduped(cs[..|cs| - 1]), cs[|cs| - 1];
      assert forall y :: y in cs <==> y in cs[..|cs| - 1] || y == x;
      if x in front then front else front + [x]
  }

  predicate Distinct(s: seq<string>) {
    forall i, j :: 0 <= i < j < |s| ==> s[i] != s[j]
  }

  lemma {:induction false} DedupedIsDistinct(cs: seq<string>)
    ensures Distinct(Deduped(cs))
    decreases |cs|
  {
    if cs != [] { DedupedIsDistinct(cs[..|cs| - 1]); }
  }

  /** slices.Sort: a list with its repeats, in order. */
  function Sorted(s: seq<string>): (r: seq<string>)
    ensures multiset(r) == multiset(s)
  {
    if s == [] then []
    else
      assert s == s[..|s| - 1] + [s[|s| - 1]];
      Placed(Sorted(s[..|s| - 1]), s[|s| - 1])
  }

  function Placed(s: seq<string>, x: string): (r: seq<string>)
    ensures multiset(r) == multiset(s) + multiset{x}
  {
    if s == [] || !Less(s[0], x) then [x] + s
    else
      assert s == [s[0]] + s[1..];
      [s[0]] + Placed(s[1..], x)
  }

  lemma {:induction false} PlacedIsInsert(s: seq<string>, x: string)
    requires Ascending(s) && x !in s
    ensures Placed(s, x) == Insert(s, x)
    decreases |s|
  {
    if s != [] {
      LessTotal(x, s[0]);
      if Less(s[0], x) { PlacedIsInsert(s[1..], x); }
    }
  }

  lemma {:induction false} SortedIsCanon(s: seq<string>)
    requires Distinct(s)
    ensures Sorted(s) == Canon(s)
    decreases |s|
  {
    if s != [] {
      var front, x := s[..|s| - 1], s[|s| - 1];
      SortedIsCanon(front);
      assert x !in Canon(front);
      PlacedIsInsert(Canon(front), x);
    }
  }

  /** Sorting what is left after the repeats are dropped gives the canonical list. */
  lemma CanonOfDeduped(cs: seq<string>)
    ensures Canon(Deduped(cs)) == Canon(cs)
  {
    AscendingUnique(Canon(Deduped(cs)), Canon(cs));
  }

  method FormatScopes(cs: seq<Capability>) returns (text: string)
    ensures text == Format(cs)
  {
    var out: seq<Capability> := [];
    for i := 0 to |cs|
      invariant out == Deduped(cs[..i])
    {
      assert cs[..i + 1][..i] == cs[..i];
      if cs[i] !in out {
        out := out + [cs[i]];
      }
    }
    assert cs[..|cs|] == cs;
    DedupedIsDistinct(cs);
    CanonOfDeduped(cs);
    SortedIsCanon(out);
    text := Join(Sorted(out));
  }

  method ParseScopes(s: string) returns (r: Result<seq<Capability>, ScopeError>)
    ensures r == Parse(s)
  {
    var fields := Fields(s);
    if |fields| == 0 {
      return Success([]);
    }
    var out: seq<Capability> := [];
    for i := 0 to |fields|
      invariant out == Deduped(fields[..i])
      invariant forall j :: 0 <= j < i ==> fields[j] in GRANTABLE
    {
      if fields[i] !in GRANTABLE {
        assert fields[i] in fields;
        return Failure(ScopeUnknown);
      }
      assert fields[..i + 1][..i] == fields[..i];
      if fields[i] !in out {
        out := out + [fields[i]];
      }
    }
    assert fields[..|fields|] == fields;
    DedupedIsDistinct(fields);
    CanonOfDeduped(fields);
    SortedIsCanon(out);
    r := Success(Sorted(out));
  }

  // What the stored form promises

  /** One set of scopes has one representation, whatever its order and repeats. */
  lemma SameSetPrintsSame(a: seq<Capability>, b: seq<Capability>)
    requires Elements(a) == Elements(b)
    ensures Format(a) == Format(b)
  {
    forall y ensures y in Canon(a) <==> y in Canon(b) {
      assert y in Elements(a) <==> y in a;
      assert y in Elements(b) <==> y in b;
    }
    AscendingUnique(Canon(a), Canon(b));
  }

  /** A scope the separator can be told from. */
  predicate Spaceless(w: string) {
    w != "" && ' ' !in w
  }

  function UpToSpace(s: string): string {
    if s == "" || s[0] == ' ' then "" else [s[0]] + UpToSpace(s[1..])
  }

  lemma {:induction false} UpToSpaceOf(w: string, rest: string)
    requires ' ' !in w && (rest == "" || rest[0] == ' ')
    ensures UpToSpace(w + rest) == w
    decreases |w|
  {
    if w == "" {
      assert w + rest == rest;
    } else {
      assert (w + rest)[0] == w[0] && (w + rest)[1..] == w[1..] + rest;
      assert w[0] in w && forall c :: c in w[1..] ==> c in w;
      UpToSpaceOf(w[1..], rest);
      assert w == [w[0]] + w[1..];
    }
  }

  function Behind(parts: seq<string>): string
    requires parts != []
  {
    if |parts| == 1 then "" else " " + Join(parts[1..])
  }

  lemma JoinStarts(parts: seq<string>)
    requires parts != [] && Spaceless(parts[0])
    ensures Join(parts) == parts[0] + Behind(parts) && UpToSpace(Join(parts)) == parts[0]
  {
    UpToSpaceOf(parts[0], Behind(parts));
    assert parts[0] + (" " + Join(parts[1..])) == parts[0] + " " + Join(parts[1..]);
    assert parts[0] + "" == parts[0];
  }

  lemma SameStart(p: seq<string>, q: seq<string>)
    requires p != [] && q != [] && Spaceless(p[0]) && Spaceless(q[0]) && Join(p) == Join(q)
    ensures p[0] == q[0] && Behind(p) == Behind(q)
  {
    JoinStarts(p);
    JoinStarts(q);
    assert (p[0] + Behind(p))[|p[0]|..] == Behind(p) && (q[0] + Behind(q))[|q[0]|..] == Behind(q);
  }

  lemma SameRest(p: seq<string>, q: seq<string>)
    requires p != [] && q != [] && Behind(p) == Behind(q)
    ensures |p| == 1 <==> |q| == 1
    ensures |p| > 1 ==> Join(p[1..]) == Join(q[1..])
  {
    if |p| > 1 && |q| > 1 {
      assert (" " + Join(p[1..]))[1..] == Join(p[1..]) && (" " + Join(q[1..]))[1..] == Join(q[1..]);
    }
  }

  lemma {:induction false} JoinInjective(p: seq<string>, q: seq<string>)
    requires (forall w :: w in p ==> Spaceless(w)) && (forall w :: w in q ==> Spaceless(w)) && Join(p) == Join(q)
    ensures p == q
    decreases |p|
  {
    if p == [] || q == [] {
      if p != [] { JoinStarts(p); }
      if q != [] { JoinStarts(q); }
    } else {
      SameStart(p, q);
      SameRest(p, q);
      assert p == [p[0]] + p[1..] && q == [q[0]] + q[1..];
      if |p| > 1 { JoinInjective(p[1..], q[1..]); }
    }
  }

  /** The printed form is canonical on scopes without a space: it is equal exactly for equal sets of them. */
  lemma FormatIsCanonical(a: seq<Capability>, b: seq<Capability>)
    requires forall w :: w in a || w in b ==> Spaceless(w)
    ensures Format(a) == Format(b) <==> Elements(a) == Elements(b)
  {
    if Elements(a) == Elements(b) {
      SameSetPrintsSame(a, b);
    }
    if Format(a) == Format(b) {
      JoinInjective(Canon(a), Canon(b));
      assert forall y :: y in a <==> y in Canon(a);
      assert forall y :: y in b <==> y in Canon(b);
      assert Elements(a) == Elements(b);
    }
  }

  /** What either kind of token may carry has no space, so no two sets of scopes a store writes print alike. */
  lemma StoredTextsAreCanonical(a: seq<Capability>, b: seq<Capability>)
    requires forall c :: c in a || c in b ==> c in GRANTABLE || c in INSTALLATION_GRANTABLE
    ensures Format(a) == Format(b) <==> Elements(a) == Elements(b)
  {
    forall c | c in a || c in b ensures Spaceless(c) {
      if c in GRANTABLE { GrantableIsWord(c); } else { InstallationIsSpaceless(c); }
    }
    FormatIsCanonical(a, b);
  }

  lemma {:induction false} LessExtends(x: string, y: string, z: string)
    requires Less(x, y)
    ensures Less(x, y + z)
    decreases |x|
  {
    if x != "" {
      assert (y + z)[0] == y[0] && (y + z)[1..] == y[1..] + z;
      if x[0] == y[0] { LessExtends(x[1..], y[1..], z); }
    }
  }

  /** A scope prints like some other set: it is empty, or it falls apart at a space into two in order. */
  predicate Ambiguous(c: string) {
    c == "" || exists i :: 0 <= i < |c| && c[i] == ' ' && Less(c[..i], c[i + 1..])
  }

  lemma CanonOfOne(c: string)
    ensures Canon([c]) == [c] && Format([c]) == c
  {
    AscendingUnique(Canon([c]), [c]);
  }

  lemma OneElement(b: seq<Capability>)
    ensures |Canon(b)| == 1 ==> Elements(b) == {Format(b)}
  {
    forall y ensures y in Elements(b) <==> y in Canon(b) {
      assert y in Elements(b) <==> y in b;
    }
  }

  lemma OtherListIsSplit(b: seq<Capability>, c: string)
    requires Format(b) == c && Elements(b) != {c}
    ensures Ambiguous(c)
  {
    var p := Canon(b);
    OneElement(b);
    if |p| > 1 {
      var x, rest := p[0], Join(p[1..]);
      assert c == x + " " + rest && c[|x|] == ' ' && c[..|x|] == x && c[|x| + 1..] == rest;
      assert Less(p[0], p[1]) && p[1..][0] == p[1];
      if |p| == 2 {
        assert p[1..] == [p[1]] && rest == p[1];
      } else {
        LessExtends(x, p[1], " " + Join(p[1..][1..]));
        assert rest == p[1] + (" " + Join(p[1..][1..]));
      }
    }
  }

  lemma AmbiguousCollides(c: string) returns (b: seq<Capability>)
    requires Ambiguous(c)
    ensures Format(b) == c && Elements(b) != {c}
  {
    if c == "" {
      b := [];
      assert c !in Elements(b);
    } else {
      var i :| 0 <= i < |c| && c[i] == ' ' && Less(c[..i], c[i + 1..]);
      b := [c[..i], c[i + 1..]];
      assert c == c[..i] + " " + c[i + 1..];
      SpacedScopesPrintAlike(c[..i], c[i + 1..]);
      CanonOfOne(c);
      assert b[0] in b && b[0] in Elements(b) && |b[0]| < |c|;
    }
  }

  /** One scope's text is that of no other set of scopes, whatever those hold, exactly when it is not ambiguous. */
  lemma ReadsAloneExactly(c: string)
    ensures (forall b :: Format(b) == c ==> Elements(b) == {c}) <==> !Ambiguous(c)
  {
    if Ambiguous(c) {
      var b := AmbiguousCollides(c);
    } else {
      forall b | Format(b) == c ensures Elements(b) == {c} {
        if Elements(b) != {c} { OtherListIsSplit(b, c); }
      }
    }
  }

  /** Every grantable scope is one word, so a printed list parses back to itself, sorted and without repeats. */
  lemma ParseInvertsFormat(cs: seq<Capability>)
    requires forall c :: c in cs ==> c in GRANTABLE
    ensures Parse(Format(cs)) == Success(Canon(cs))
  {
    forall c | c in Canon(cs) ensures IsWord(c) { GrantableIsWord(c); }
    FieldsOfJoin(Canon(cs));
    AscendingUnique(Canon(Canon(cs)), Canon(cs));
  }

  /** What is stored can be printed again without change: the stored text is a fixed point. */
  lemma StoredTextIsFixed(s: string)
    requires Parse(s).Success?
    ensures Parse(Format(Parse(s).value)) == Parse(s)
    ensures forall c :: c in Parse(s).value ==> c in GRANTABLE
  {
    var cs := Canon(Fields(s));
    forall c | c in cs ensures c in GRANTABLE { assert c in Fields(s); }
    ParseInvertsFormat(cs);
    AscendingUnique(Canon(cs), cs);
  }

  /** A space inside a scope would break the promise: two words and their join print alike. */
  lemma SpacedScopesPrintAlike(x: string, y: string)
    requires Less(x, y)
    ensures Format([x, y]) == Format([x + " " + y])
    ensures Elements([x, y]) != Elements([x + " " + y])
  {
    assert Canon([x, y]) == [x, y] by { AscendingUnique(Canon([x, y]), [x, y]); }
    assert Canon([x + " " + y]) == [x + " " + y] by { AscendingUnique(Canon([x + " " + y]), [x + " " + y]); }
    assert [x, y][1..] == [y];
    assert Join([x, y]) == x + " " + Join([y]) == x + " " + y;
    assert x in [x, y] && y in [x, y] && |x + " " + y| > |x|;
    assert x in Elements([x, y]);
    assert x !in Elements([x + " " + y]);
  }

  lemma HubReadsAreWords()
    ensures IsWord("read:hub.org")
    ensures IsWord("read:hub.project")
    ensures IsWord("read:hub.template")
    ensures IsWord("read:hub.preset")
    ensures IsWord("read:hub.event")
  {
  }

  lemma OtherReadsAreWords()
    ensures IsWord("read:fleet.connector")
    ensures IsWord("read:fleet.terminal")
    ensures IsWord("read:fleet.file")
    ensures IsWord("read:project.task")
  {
  }

  lemma AdminScopesAreWords()
    ensures IsWord("admin:hub.org")
    ensures IsWord("admin:hub.staff")
    ensures IsWord("admin:hub.project")
    ensures IsWord("admin:hub.preset")
  {
  }

  lemma MakingScopesAreWords()
    ensures IsWord("delete:hub.org")
    ensures IsWord("create:hub.project")
    ensures IsWord("delete:hub.project")
    ensures IsWord("create:fleet.connector")
    ensures IsWord("create:project.task")
  {
  }

  lemma ConnectorScopesAreWords()
    ensures IsWord("admin:fleet.connector")
    ensures IsWord("exec:fleet.connector")
    ensures IsWord("attach:fleet.terminal")
    ensures IsWord("write:fleet.file")
  {
  }

  /** The scopes of an installation token, two of which no role grants. */
  lemma InstallationIsSpaceless(c: Capability)
    requires c in INSTALLATION_GRANTABLE
    ensures Spaceless(c)
  {
    HubReadsAreWords();
    AdminScopesAreWords();
    BoxScopesAreSpaceless();
  }

  lemma BoxScopesAreSpaceless()
    ensures Spaceless("admin:hub.skill") && Spaceless("admin:hub.model")
    ensures Spaceless("read:fleet.box") && Spaceless("admin:fleet.box")
  {
  }

  lemma GrantableIsWord(c: Capability)
    requires c in GRANTABLE
    ensures IsWord(c)
  {
    HubReadsAreWords();
    OtherReadsAreWords();
    AdminScopesAreWords();
    MakingScopesAreWords();
    ConnectorScopesAreWords();
  }
}
