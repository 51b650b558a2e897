/**
  The file list of a model pin and the factory seed of the registry
  (internal/hub/model_store.go, 110-195 and 1328-1413).
 */
module ModelFiles {
  import opened Wrappers
  import opened BoxTables
  import opened Text

  datatype SeedModel = SeedModel(id: Id, org: string, purpose: Purpose, pin: Pin, learned: Learned)

  // --- file lists ---

  /** As many entries, and every one of b is in a; SeedLaws.DecidesOrderExactly says when that is equality up to order. */
  predicate SameFiles(a: seq<ModelFile>, b: seq<ModelFile>) {
    |a| == |b| && forall f | f in b :: f in a
  }

  function Names(files: seq<ModelFile>): (names: seq<string>)
    ensures |names| == |files|
  {
    seq(|files|, i requires 0 <= i < |files| => Trim(files[i].file))
  }

  predicate Distinct<T(==)>(s: seq<T>) {
    forall i, j | 0 <= i < j < |s| :: s[i] != s[j]
  }

  /** Names present and unique, sizes not negative, and the anchor among them. */
  predicate ValidFiles(anchor: string, files: seq<ModelFile>) {
    files != [] ==>
      && (forall f | f in files :: Trim(f.file) != "" && f.size >= 0)
      && Distinct(Names(files))
      && (anchor != "" ==> anchor in Names(files))
  }

  /** The stored entry a name holds; the last one of a list that repeats it. */
  function Held(stored: seq<ModelFile>, name: string): Option<ModelFile> {
    if stored == [] then None
    else if stored[|stored| - 1].file == name then Some(stored[|stored| - 1])
    else Held(stored[..|stored| - 1], name)
  }

  function MergeOne(stored: seq<ModelFile>, f: ModelFile): ModelFile {
    var known := if Held(stored, f.file).Some? then Held(stored, f.file).value else ModelFile(f.file, "", 0);
    ModelFile(f.file, if known.digest == "" then f.digest else known.digest,
              if known.size == 0 then f.size else known.size)
  }

  /** The seed's names with the digests and sizes the store already holds. */
  function MergeFiles(stored: seq<ModelFile>, seeded: seq<ModelFile>): (r: seq<ModelFile>)
    ensures |r| == |seeded|
  {
    seq(|seeded|, i requires 0 <= i < |seeded| => MergeOne(stored, seeded[i]))
  }

  // --- purposes ---

  /** A purpose set in canonical order. */
  function Canonical(roles: set<Purpose>): seq<Purpose> {
    CanonicalFrom(roles, 0)
  }

  function CanonicalFrom(roles: set<Purpose>, i: nat): seq<Purpose>
    requires i <= |PURPOSE_ORDER|
    decreases |PURPOSE_ORDER| - i
  {
    if i == |PURPOSE_ORDER| then []
    else (if PURPOSE_ORDER[i] in roles then [PURPOSE_ORDER[i]] else []) + CanonicalFrom(roles, i + 1)
  }

  /** A persona pin also serves the narrator. */
  function Expanded(roles: set<Purpose>): set<Purpose> {
    if Persona in roles then roles + {Narrator} else roles
  }

  predicate SamePurposes(a: seq<Purpose>, b: seq<Purpose>) {
    |a| == |b| && forall p | p in b :: p in a
  }

  // --- the factory seed ---

  function SeedPurposes(s: SeedModel): seq<Purpose> {
    Canonical(Expanded({s.purpose}))
  }

  /** Whether a stored pin differs from its factory definition in anything but a filled digest. */
  predicate Drifted(m: Model, s: SeedModel) {
    || m.org != s.org || m.pin.source != s.pin.source || m.pin.quant != s.pin.quant || m.pin.file != s.pin.file
    || m.pin.licence != s.pin.licence || m.purpose != s.purpose || !SamePurposes(m.purposes, SeedPurposes(s))
    || m.learned != s.learned || m.pin.engine != s.pin.engine || m.pin.size != s.pin.size
    || !SameFiles(m.pin.files, MergeFiles(m.pin.files, s.pin.files))
    || (m.pin.digest == "" && s.pin.digest != "")
  }

  function Restored(m: Model, s: SeedModel): Model {
    Model(s.org, s.purpose, SeedPurposes(s),
          s.pin.(digest := if m.pin.digest == "" then s.pin.digest else m.pin.digest,
                 files := MergeFiles(m.pin.files, s.pin.files)),
          s.learned)
  }

  predicate NeedsSeed(models: map<Id, Model>, s: SeedModel) {
    s.id !in models || Drifted(models[s.id], s)
  }

  function SeedOne(models: map<Id, Model>, s: SeedModel): map<Id, Model> {
    if s.id !in models then models[s.id := Model(s.org, s.purpose, SeedPurposes(s), s.pin, s.learned)]
    else if Drifted(models[s.id], s) then models[s.id := Restored(models[s.id], s)]
    else models
  }

  function SeedPass(models: map<Id, Model>, seeds: seq<SeedModel>): map<Id, Model>
    decreases |seeds|
  {
    if seeds == [] then models else SeedPass(SeedOne(models, seeds[0]), seeds[1..])
  }

  predicate SeedChanges(models: map<Id, Model>, seeds: seq<SeedModel>)
    decreases |seeds|
  {
    seeds != [] && (NeedsSeed(models, seeds[0]) || SeedChanges(SeedOne(models, seeds[0]), seeds[1..]))
  }

  // --- the loops over file lists and purposes ---

  method SameFileList(a: seq<ModelFile>, b: seq<ModelFile>) returns (same: bool)
    ensures same == SameFiles(a, b)
    ensures same <==> |a| == |b| && forall i :: 0 <= i < |b| ==> b[i] in a
  {
    if |a| != |b| {
      return false;
    }
    var seen: set<ModelFile> := {};
    for i := 0 to |a|
      invariant seen == set f | f in a[..i]
    {
      seen := seen + {a[i]};
      assert a[..i + 1] == a[..i] + [a[i]];
    }
    assert a[..|a|] == a;
    for i := 0 to |b|
      invariant forall f | f in b[..i] :: f in a
    {
      if b[i] !in seen {
        return false;
      }
      assert b[..i + 1] == b[..i] + [b[i]];
    }
    assert b[..|b|] == b;
    return true;
  }

  method MergeSeedFiles(stored: seq<ModelFile>, seeded: seq<ModelFile>) returns (merged: seq<ModelFile>)
    ensures merged == MergeFiles(stored, seeded)
  {
    if |seeded| == 0 {
      return [];
    }
    var held: map<string, ModelFile> := map[];
    for i := 0 to |stored|
      invariant forall name :: Held(stored[..i], name) == if name in held then Some(held[name]) else None
    {
      assert stored[..i + 1][..i] == stored[..i];
      held := held[stored[i].file := stored[i]];
    }
    assert stored[..|stored|] == stored;
    merged := [];
    for i := 0 to |seeded|
      invariant merged == MergeFiles(stored, seeded)[..i]
    {
      var f := seeded[i];
      var known := if f.file in held then held[f.file] else ModelFile(f.file, "", 0);
      var digest := known.digest;
      if digest == "" {
        digest := f.digest;
      }
      var size := known.size;
      if size == 0 {
        size := f.size;
      }
      assert Held(stored, f.file) == if f.file in held then Some(held[f.file]) else None;
      merged := merged + [ModelFile(f.file, digest, size)];
    }
  }

  method ValidateModelFiles(anchor: string, files: seq<ModelFile>) returns (ok: bool)
    ensures ok == ValidFiles(anchor, files)
  {
    if |files| == 0 {
      return true;
    }
    ghost var names := Names(files);
    var seen: set<string> := {};
    for i := 0 to |files|
      invariant forall f | f in files[..i] :: Trim(f.file) != "" && f.size >= 0
      invariant forall j, k | 0 <= j < k < i :: names[j] != names[k]
      invariant forall name :: name in seen <==> exists j :: 0 <= j < i && names[j] == name
    {
      var name := Trim(files[i].file);
      assert names[i] == name && files[i] in files;
      if name == "" || files[i].size < 0 || name in seen {
        return false;
      }
      seen := seen + {name};
      assert files[..i + 1] == files[..i] + [files[i]];
    }
    assert files[..|files|] == files;
    return anchor == "" || anchor in seen;
  }

  /** What makes a list be refused: a blank or repeated name, a negative size, or an anchor that is not in it. */
  predicate Faulty(anchor: string, files: seq<ModelFile>) {
    || (exists i :: 0 <= i < |files| && (Trim(files[i].file) == "" || files[i].size < 0))
    || (exists i, j :: 0 <= i < j < |files| && Trim(files[i].file) == Trim(files[j].file))
    || (anchor != "" && forall i :: 0 <= i < |files| ==> Trim(files[i].file) != anchor)
  }

  /** ValidateModelFiles refuses a list with entries exactly for one of those. */
  lemma ValidOrFaulty(anchor: string, files: seq<ModelFile>)
    requires |files| > 0
    ensures ValidFiles(anchor, files) <==> !Faulty(anchor, files)
  {
    var names := Names(files);
    if !Faulty(anchor, files) {
      forall f | f in files ensures Trim(f.file) != "" && f.size >= 0 {
        var i :| 0 <= i < |files| && files[i] == f;
      }
      forall i, j | 0 <= i < j < |names| ensures names[i] != names[j] {
        assert Trim(files[i].file) != Trim(files[j].file);
      }
      if anchor != "" {
        var i :| 0 <= i < |files| && Trim(files[i].file) == anchor;
        assert names[i] in names;
      }
    }
    if ValidFiles(anchor, files) {
      assert forall i :: 0 <= i < |files| ==> files[i] in files && Trim(files[i].file) == names[i];
      assert forall i, j :: 0 <= i < j < |files| ==> names[i] != names[j];
      if anchor != "" {
        var i :| 0 <= i < |names| && names[i] == anchor;
        assert Trim(files[i].file) == anchor;
      }
    }
  }

  function Given(raw: seq<Option<Purpose>>): set<Purpose> {
    set p: Purpose | Some(p) in raw
  }

  lemma GivenNext(raw: seq<Option<Purpose>>, i: nat)
    requires i < |raw| && raw[i].Some?
    ensures Given(raw[..i + 1]) == Given(raw[..i]) + {raw[i].value}
  {
    assert raw[..i + 1] == raw[..i] + [raw[i]];
    forall p ensures p in Given(raw[..i + 1]) <==> p in Given(raw[..i]) || p == raw[i].value {
      assert p in Given(raw[..i + 1]) <==> Some(p) in raw[..i] + [raw[i]];
    }
  }

  /** ParsePurposes over what ParsePurpose answered for each entry. */
  method ParsePurposes(raw: seq<Option<Purpose>>) returns (r: Option<seq<Purpose>>)
    ensures r.None? <==> raw == [] || None in raw
    ensures r.Some? ==> r.value == Canonical(Expanded(Given(raw)))
  {
    if |raw| == 0 {
      return None;
    }
    var seen: set<Purpose> := {};
    for i := 0 to |raw|
      invariant forall j :: 0 <= j < i ==> raw[j].Some?
      invariant seen == Given(raw[..i])
    {
      if raw[i].None? {
        return None;
      }
      GivenNext(raw, i);
      seen := seen + {raw[i].value};
    }
    assert raw[..|raw|] == raw;
    if Persona in seen && Narrator !in seen {
      seen := seen + {Narrator};
    }
    assert seen == Expanded(Given(raw));
    // The library's stable sort by purposeIndex; SeedLaws.CanonicalIsTheSort says why this is its answer.
    return Some(Canonical(seen));
  }
}
