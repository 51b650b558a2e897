/** What the factory seeds promise: idempotence, digests never lost, valid file lists, once-only defaults. */
module SeedLaws {
  import opened Wrappers
  import opened BoxTables
  import opened BoxWrites
  import opened ModelFiles
  import opened Text

  // --- file lists ---

  predicate DistinctNames(files: seq<ModelFile>) {
    forall i, j | 0 <= i < j < |files| :: files[i].file != files[j].file
  }

  lemma {:induction false} HeldFinds(files: seq<ModelFile>, k: nat)
    requires k < |files| && DistinctNames(files)
    ensures Held(files, files[k].file) == Some(files[k])
  {
    if k < |files| - 1 {
      HeldFinds(files[..|files| - 1], k);
      assert files[..|files| - 1][k] == files[k];
    }
  }

  lemma {:induction false} HeldIsStored(files: seq<ModelFile>, name: string)
    ensures var h := Held(files, name); h.Some? ==> h.value in files && h.value.file == name
  {
    if files != [] && files[|files| - 1].file != name {
      HeldIsStored(files[..|files| - 1], name);
    }
  }

  lemma ValidNamesDistinct(anchor: string, files: seq<ModelFile>)
    requires ValidFiles(anchor, files)
    ensures DistinctNames(files)
  {
    forall i, j | 0 <= i < j < |files| ensures files[i].file != files[j].file {
      assert Names(files)[i] != Names(files)[j];
    }
  }

  // --- the comparison of two lists ---

  lemma {:induction false} DistinctInside(a: seq<ModelFile>, b: seq<ModelFile>)
    requires Distinct(b) && forall f | f in b :: f in a
    ensures multiset(b) <= multiset(a)
    decreases |b|
  {
    if b != [] {
      var last, front := b[|b| - 1], b[..|b| - 1];
      assert b == front + [last] && last in b;
      forall f | f in front ensures f in a { assert f in b; }
      forall i, j | 0 <= i < j < |front| ensures front[i] != front[j] { assert b[i] != b[j]; }
      DistinctInside(a, front);
      assert last !in front;
      assert multiset(front)[last] == 0;
      assert multiset(a)[last] >= 1;
      assert multiset(b) == multiset(front) + multiset{last};
    }
  }

  lemma SameCounts(a: multiset<ModelFile>, b: multiset<ModelFile>)
    requires b <= a && |a| == |b|
    ensures a == b
  {
    assert a == b + (a - b);
  }

  /** Against a list without repeats, the comparison decides equality up to order. */
  lemma DistinctIsDecided(a: seq<ModelFile>, b: seq<ModelFile>)
    requires Distinct(b)
    ensures SameFiles(a, b) <==> multiset(a) == multiset(b)
  {
    if SameFiles(a, b) {
      DistinctInside(a, b);
      assert |multiset(a)| == |a| && |multiset(b)| == |b|;
      SameCounts(multiset(a), multiset(b));
    }
    if multiset(a) == multiset(b) {
      assert |multiset(a)| == |a| && |multiset(b)| == |b|;
      forall f | f in b ensures f in a {
        assert f in multiset(b);
        assert f in multiset(a);
      }
    }
  }

  /** The case: a list that names x twice passes for any list of two that has an x. */
  lemma RepeatedEntryPasses(x: ModelFile, y: ModelFile)
    requires x != y
    ensures SameFiles([x, y], [x, x]) && !SameFiles([x, x], [x, y])
    ensures multiset([x, y]) != multiset([x, x])
  {
    assert [x, y][0] == x && [x, y][1] == y;
    assert y !in [x, x];
    assert multiset([x, y])[y] == 1 && multiset([x, x])[y] == 0;
  }

  ghost predicate DecidesOrder(b: seq<ModelFile>) {
    forall a :: SameFiles(a, b) <==> multiset(a) == multiset(b)
  }

  lemma ReplacedCount(b: seq<ModelFile>, i: nat, other: ModelFile)
    requires i < |b| && other != b[i]
    ensures multiset(b[i := other]) != multiset(b)
  {
    assert multiset(b[i := other]) == multiset(b) - multiset{b[i]} + multiset{other};
    assert multiset(b[i := other])[other] == multiset(b)[other] + 1;
  }

  lemma RepeatIsMissed(b: seq<ModelFile>, i: nat, j: nat)
    requires i < j < |b| && b[i] == b[j]
    ensures !DecidesOrder(b)
  {
    var other := b[i].(size := b[i].size + 1);
    var a := b[i := other];
    forall f | f in b ensures f in a {
      var k :| 0 <= k < |b| && b[k] == f;
      assert a[if k == i then j else k] == f;
    }
    assert SameFiles(a, b);
    ReplacedCount(b, i, other);
  }

  /** Comparing with b decides equality up to order, whatever it is compared with, exactly when b has no repeat. */
  lemma DecidesOrderExactly(b: seq<ModelFile>)
    ensures DecidesOrder(b) <==> Distinct(b)
  {
    if Distinct(b) {
      forall a ensures SameFiles(a, b) <==> multiset(a) == multiset(b) { DistinctIsDecided(a, b); }
    } else {
      var i, j :| 0 <= i < j < |b| && b[i] == b[j];
      RepeatIsMissed(b, i, j);
    }
  }

  /** So the drift check of a valid seed, which compares with a merged list, decides it for every stored list. */
  lemma MergedListIsDecided(anchor: string, stored: seq<ModelFile>, seeded: seq<ModelFile>)
    requires ValidFiles(anchor, seeded)
    ensures Distinct(MergeFiles(stored, seeded)) && DecidesOrder(MergeFiles(stored, seeded))
  {
    ValidNamesDistinct(anchor, seeded);
    var m := MergeFiles(stored, seeded);
    forall i, j | 0 <= i < j < |m| ensures m[i] != m[j] {
      assert m[i].file == seeded[i].file && m[j].file == seeded[j].file;
    }
    DecidesOrderExactly(m);
  }

  // --- merging ---

  /** Merging again what a merge produced changes nothing. */
  lemma MergeIdempotent(stored: seq<ModelFile>, seeded: seq<ModelFile>)
    requires DistinctNames(seeded)
    ensures MergeFiles(MergeFiles(stored, seeded), seeded) == MergeFiles(stored, seeded)
  {
    var once := MergeFiles(stored, seeded);
    forall k | 0 <= k < |seeded| ensures MergeOne(once, seeded[k]) == once[k] {
      HeldFinds(once, k);
    }
  }

  /** A digest the store holds survives the merge; a file the seed does not name is dropped. */
  lemma MergeKeepsDigests(stored: seq<ModelFile>, seeded: seq<ModelFile>, f: ModelFile, k: nat)
    requires DistinctNames(stored) && f in stored && f.digest != ""
    requires k < |seeded| && seeded[k].file == f.file
    ensures MergeFiles(stored, seeded)[k].file == f.file && MergeFiles(stored, seeded)[k].digest == f.digest
  {
    var i :| 0 <= i < |stored| && stored[i] == f;
    HeldFinds(stored, i);
  }

  lemma MergeKeepsValid(anchor: string, stored: seq<ModelFile>, seedAnchor: string, seeded: seq<ModelFile>)
    requires ValidFiles(anchor, stored) && ValidFiles(seedAnchor, seeded)
    ensures ValidFiles(seedAnchor, MergeFiles(stored, seeded))
  {
    var m := MergeFiles(stored, seeded);
    assert Names(m) == Names(seeded);
    forall f | f in m ensures seeded != [] ==> Trim(f.file) != "" && f.size >= 0 {
      var k :| 0 <= k < |m| && m[k] == f;
      HeldIsStored(stored, seeded[k].file);
      assert seeded[k] in seeded;
    }
  }

  // --- purpose sets ---

  predicate InOrder(s: seq<Purpose>) {
    forall i, j | 0 <= i < j < |s| :: OrderIndex(s[i]) < OrderIndex(s[j])
  }

  function OrderIndex(p: Purpose): nat {
    match p
    case Persona => 0 case Worker => 1 case Narrator => 2 case Embedding => 3 case Stt => 4
    case Vad => 5 case Turn => 6 case Tts => 7 case Classification => 8
  }

  lemma OrderPlace(p: Purpose)
    ensures OrderIndex(p) < |PURPOSE_ORDER| && PURPOSE_ORDER[OrderIndex(p)] == p
  {
  }

  lemma {:induction false} CanonicalFromHolds(roles: set<Purpose>, i: nat, p: Purpose)
    requires i <= |PURPOSE_ORDER|
    ensures p in CanonicalFrom(roles, i) <==> p in roles && OrderIndex(p) >= i
    decreases |PURPOSE_ORDER| - i
  {
    OrderPlace(p);
    if i < |PURPOSE_ORDER| {
      PlaceOrder(i);
      CanonicalFromHolds(roles, i + 1, p);
    }
  }

  lemma PlaceOrder(i: nat)
    requires i < |PURPOSE_ORDER|
    ensures OrderIndex(PURPOSE_ORDER[i]) == i
  {
  }

  lemma HeadInOrder(p: Purpose, tail: seq<Purpose>)
    requires InOrder(tail) && forall q | q in tail :: OrderIndex(q) > OrderIndex(p)
    ensures InOrder([p] + tail)
  {
    var s := [p] + tail;
    forall j, k | 0 <= j < k < |s| ensures OrderIndex(s[j]) < OrderIndex(s[k]) {
      assert s[k] == tail[k - 1] && s[k] in tail;
    }
  }

  lemma CanonicalStep(roles: set<Purpose>, i: nat)
    requires i < |PURPOSE_ORDER|
    ensures CanonicalFrom(roles, i) == if PURPOSE_ORDER[i] in roles then [PURPOSE_ORDER[i]] + CanonicalFrom(roles, i + 1)
                                       else CanonicalFrom(roles, i + 1)
  {
  }

  lemma {:induction false} CanonicalFromInOrder(roles: set<Purpose>, i: nat)
    requires i <= |PURPOSE_ORDER|
    ensures InOrder(CanonicalFrom(roles, i))
    decreases |PURPOSE_ORDER| - i
  {
    if i < |PURPOSE_ORDER| {
      var tail := CanonicalFrom(roles, i + 1);
      CanonicalStep(roles, i);
      PlaceOrder(i);
      CanonicalFromInOrder(roles, i + 1);
      forall q | q in tail ensures OrderIndex(q) > OrderIndex(PURPOSE_ORDER[i]) {
        CanonicalFromHolds(roles, i + 1, q);
      }
      HeadInOrder(PURPOSE_ORDER[i], tail);
    }
  }

  lemma CanonicalFromSorted(roles: set<Purpose>, i: nat)
    requires i <= |PURPOSE_ORDER|
    ensures InOrder(CanonicalFrom(roles, i))
    ensures forall p :: p in CanonicalFrom(roles, i) <==> p in roles && OrderIndex(p) >= i
  {
    CanonicalFromInOrder(roles, i);
    forall p ensures p in CanonicalFrom(roles, i) <==> p in roles && OrderIndex(p) >= i {
      CanonicalFromHolds(roles, i, p);
    }
  }

  lemma NoneInEmpty(s: seq<Purpose>)
    ensures s == [] <==> forall p :: p !in s
  {
    if s != [] {
      assert s[0] in s;
    }
  }

  lemma {:induction false} InOrderUnique(a: seq<Purpose>, b: seq<Purpose>)
    requires InOrder(a) && InOrder(b) && forall p :: p in a <==> p in b
    ensures a == b
  {
    if a != [] && b != [] {
      assert a[0] in b && b[0] in a;
      var i :| 0 <= i < |b| && b[i] == a[0];
      var j :| 0 <= j < |a| && a[j] == b[0];
      assert i == 0 && j == 0;
      forall p ensures p in a[1..] <==> p in b[1..] {
        assert p in a[1..] <==> p in a && p != a[0];
        assert p in b[1..] <==> p in b && p != b[0];
      }
      InOrderUnique(a[1..], b[1..]);
    } else {
      NoneInEmpty(a);
      NoneInEmpty(b);
    }
  }

  /** The one ordering of a purpose set in which positions follow the canonical order. */
  lemma CanonicalIsTheSort(roles: set<Purpose>, s: seq<Purpose>)
    requires InOrder(s) && forall p :: p in s <==> p in roles
    ensures s == Canonical(roles)
  {
    CanonicalFromSorted(roles, 0);
    InOrderUnique(s, Canonical(roles));
  }

  // --- one pass over the registry ---

  predicate UniqueIds(seeds: seq<SeedModel>) {
    forall i, j | 0 <= i < j < |seeds| :: seeds[i].id != seeds[j].id
  }

  predicate ValidSeeds(seeds: seq<SeedModel>) {
    UniqueIds(seeds) && forall s | s in seeds :: ValidFiles(s.pin.file, s.pin.files)
  }

  lemma {:induction false} SeedPassOthers(models: map<Id, Model>, seeds: seq<SeedModel>, id: Id)
    requires forall s | s in seeds :: s.id != id
    ensures id in SeedPass(models, seeds) <==> id in models
    ensures id in models ==> SeedPass(models, seeds)[id] == models[id]
    decreases |seeds|
  {
    if seeds != [] {
      assert seeds[0] in seeds && forall s | s in seeds[1..] :: s in seeds;
      SeedPassOthers(SeedOne(models, seeds[0]), seeds[1..], id);
    }
  }

  lemma {:induction false} SeedPassAt(models: map<Id, Model>, seeds: seq<SeedModel>, s: SeedModel)
    requires UniqueIds(seeds) && s in seeds
    ensures s.id in SeedPass(models, seeds) && SeedPass(models, seeds)[s.id] == SeedOne(models, s)[s.id]
    decreases |seeds|
  {
    var t := seeds[0];
    if s == t {
      SeedPassOthers(SeedOne(models, t), seeds[1..], s.id);
    } else {
      assert s in seeds[1..] && s.id != t.id;
      SeedPassAt(SeedOne(models, t), seeds[1..], s);
    }
  }

  /** A persona seed serves the narrator too, any other its one purpose. */
  lemma SeedPurposesAre(s: SeedModel)
    ensures SeedPurposes(s) == if s.purpose == Persona then [Persona, Narrator] else [s.purpose]
  {
    var roles := Expanded({s.purpose});
    var want := if s.purpose == Persona then [Persona, Narrator] else [s.purpose];
    assert forall p :: p in want <==> p in roles;
    CanonicalIsTheSort(roles, want);
  }

  lemma CanonicalHolds(roles: set<Purpose>, p: Purpose)
    ensures p in Canonical(roles) <==> p in roles
  {
    CanonicalFromHolds(roles, 0, p);
  }

  lemma ExpandedHolds(raw: seq<Option<Purpose>>, p: Purpose)
    ensures p in Expanded(Given(raw)) <==> Some(p) in raw || (p == Narrator && Some(Persona) in raw)
  {
  }

  /** What a parse of purposes answers: those given, and the narrator's with the persona's, in order. */
  lemma ParsedPurposesMean(raw: seq<Option<Purpose>>, p: Purpose)
    ensures p in Canonical(Expanded(Given(raw))) <==> Some(p) in raw || (p == Narrator && Some(Persona) in raw)
    ensures InOrder(Canonical(Expanded(Given(raw))))
  {
    CanonicalHolds(Expanded(Given(raw)), p);
    ExpandedHolds(raw, p);
    CanonicalFromInOrder(Expanded(Given(raw)), 0);
  }

  lemma {:induction false} HeldNobody(files: seq<ModelFile>, name: string)
    requires forall f | f in files :: f.file != name
    ensures Held(files, name).None?
  {
    if files != [] {
      assert files[|files| - 1] in files && forall f | f in files[..|files| - 1] :: f in files;
      HeldNobody(files[..|files| - 1], name);
    }
  }

  /** A merged entry has the seed's name, and of its digest and size what the store knows, or else what the seed says. */
  lemma MergeMeans(stored: seq<ModelFile>, seeded: seq<ModelFile>, i: nat, j: nat)
    requires DistinctNames(stored) && i < |seeded|
    ensures MergeFiles(stored, seeded)[i].file == seeded[i].file
    ensures j < |stored| && stored[j].file == seeded[i].file ==>
      && MergeFiles(stored, seeded)[i].digest == (if stored[j].digest != "" then stored[j].digest else seeded[i].digest)
      && MergeFiles(stored, seeded)[i].size == (if stored[j].size != 0 then stored[j].size else seeded[i].size)
    ensures (forall f | f in stored :: f.file != seeded[i].file) ==> MergeFiles(stored, seeded)[i] == seeded[i]
  {
    if j < |stored| && stored[j].file == seeded[i].file { HeldFinds(stored, j); }
    if forall f | f in stored :: f.file != seeded[i].file { HeldNobody(stored, seeded[i].file); }
  }

  /** After a pass every pin of the seed is there, with the seed's own columns, its purposes, and a digest if either has one. */
  lemma SeedPassRestores(models: map<Id, Model>, seeds: seq<SeedModel>, s: SeedModel)
    requires UniqueIds(seeds) && s in seeds
    ensures s.id in SeedPass(models, seeds)
    ensures var m := SeedPass(models, seeds)[s.id];
      && m.org == s.org && m.purpose == s.purpose && m.learned == s.learned
      && m.pin.source == s.pin.source && m.pin.quant == s.pin.quant && m.pin.file == s.pin.file
      && m.pin.licence == s.pin.licence && m.pin.engine == s.pin.engine && m.pin.size == s.pin.size
      && m.pin.digest == (if s.id in models && models[s.id].pin.digest != "" then models[s.id].pin.digest else s.pin.digest)
    ensures var m := SeedPass(models, seeds)[s.id];
      && |m.purposes| == |SeedPurposes(s)| && (forall p | p in SeedPurposes(s) :: p in m.purposes)
      && (s.id !in models ==> m.pin.files == s.pin.files)
      && (s.id in models ==> SameFiles(m.pin.files, MergeFiles(models[s.id].pin.files, s.pin.files)))
  {
    SeedPassAt(models, seeds, s);
  }

  /** And every other pin is as it was. */
  lemma SeedPassSpares(models: map<Id, Model>, seeds: seq<SeedModel>, id: Id)
    requires forall s | s in seeds :: s.id != id
    ensures (id in SeedPass(models, seeds) <==> id in models) && (id in models ==> SeedPass(models, seeds)[id] == models[id])
  {
    SeedPassOthers(models, seeds, id);
  }

  lemma SeedOneSettles(models: map<Id, Model>, s: SeedModel)
    requires ValidFiles(s.pin.file, s.pin.files)
    ensures !NeedsSeed(SeedOne(models, s), s)
  {
    ValidNamesDistinct(s.pin.file, s.pin.files);
    var stored := if s.id in models then models[s.id].pin.files else [];
    MergeIdempotent(stored, s.pin.files);
    forall k | 0 <= k < |s.pin.files| ensures MergeOne(s.pin.files, s.pin.files[k]) == s.pin.files[k] {
      HeldFinds(s.pin.files, k);
    }
    assert MergeFiles(s.pin.files, s.pin.files) == s.pin.files;
  }

  lemma {:induction false} SettledSeedsChangeNothing(models: map<Id, Model>, seeds: seq<SeedModel>)
    requires forall s | s in seeds :: !NeedsSeed(models, s)
    ensures !SeedChanges(models, seeds) && SeedPass(models, seeds) == models
    decreases |seeds|
  {
    if seeds != [] {
      assert seeds[0] in seeds && forall s | s in seeds[1..] :: s in seeds;
      SettledSeedsChangeNothing(models, seeds[1..]);
    }
  }

  lemma {:induction false} SeedPassSettles(models: map<Id, Model>, seeds: seq<SeedModel>)
    requires ValidSeeds(seeds)
    ensures forall s | s in seeds :: !NeedsSeed(SeedPass(models, seeds), s)
    decreases |seeds|
  {
    if seeds != [] {
      assert seeds[0] in seeds && forall s | s in seeds[1..] :: s in seeds;
      SeedOneSettles(models, seeds[0]);
      SeedPassSettles(SeedOne(models, seeds[0]), seeds[1..]);
      SeedPassOthers(SeedOne(models, seeds[0]), seeds[1..], seeds[0].id);
    }
  }

  /** A second pass writes nothing and bumps nothing. */
  lemma SeedModelsIdempotent(db: Db, seeds: seq<SeedModel>)
    requires ValidSeeds(seeds)
    ensures SeedModels(SeedModels(db, seeds).0, seeds) == (SeedModels(db, seeds).0, Missing)
  {
    var e := SeedModels(db, seeds).0;
    SeedPassSettles(db.models, seeds);
    if SeedChanges(db.models, seeds) {
      SettledSeedsChangeNothing(e.models, seeds);
    }
  }

  /** A pass restores every factory pin's definition; what it finds in order it leaves as it is. */
  lemma {:induction false} SeedPassKeepsDigest(models: map<Id, Model>, seeds: seq<SeedModel>, id: Id)
    requires UniqueIds(seeds) && id in models && models[id].pin.digest != ""
    ensures id in SeedPass(models, seeds) && SeedPass(models, seeds)[id].pin.digest == models[id].pin.digest
    decreases |seeds|
  {
    if seeds != [] {
      SeedPassKeepsDigest(SeedOne(models, seeds[0]), seeds[1..], id);
    }
  }

  // --- every stored pin passes ValidateModelFiles, in every run ---

  predicate PinsValid(models: map<Id, Model>) {
    forall id | id in models :: ValidFiles(models[id].pin.file, models[id].pin.files)
  }

  predicate SeedsOf(w: Write) {
    match w
    case OnSeed(SeedingModels(seeds)) => ValidSeeds(seeds)
    case _ => true
  }

  lemma {:induction false} SeedPassKeepsValid(models: map<Id, Model>, seeds: seq<SeedModel>)
    requires PinsValid(models) && ValidSeeds(seeds)
    ensures PinsValid(SeedPass(models, seeds))
    decreases |seeds|
  {
    if seeds != [] {
      var s := seeds[0];
      assert s in seeds && forall t | t in seeds[1..] :: t in seeds;
      if s.id in models {
        MergeKeepsValid(models[s.id].pin.file, models[s.id].pin.files, s.pin.file, s.pin.files);
      }
      SeedPassKeepsValid(SeedOne(models, s), seeds[1..]);
    }
  }

  lemma UpdateModelKeepsValid(d: Db, id: Id, form: PinForm)
    requires PinsValid(d.models)
    ensures PinsValid(UpdateModel(d, id, form).0.models)
  {
  }

  lemma SetFilesKeepsValid(d: Db, id: Id, files: seq<ModelFile>)
    requires PinsValid(d.models)
    ensures PinsValid(SetModelFiles(d, id, files).0.models)
  {
  }

  lemma CreateModelKeepsValid(d: Db, id: Id, form: PinForm)
    requires PinsValid(d.models)
    ensures PinsValid(CreateModel(d, id, form).0.models)
  {
  }

  lemma ModelStepKeepsValid(d: Db, w: ModelWrite)
    requires PinsValid(d.models)
    ensures PinsValid(ApplyModel(d, w).0.models)
  {
    match w
    case CreatingModel(id, form) => CreateModelKeepsValid(d, id, form);
    case UpdatingModel(id, form) => UpdateModelKeepsValid(d, id, form);
    case SettingFiles(id, files) => SetFilesKeepsValid(d, id, files);
    case SettingMeta(id, learned, size) =>
    case DeletingModel(id) =>
  }

  /** Whether the write half that lands now still finds an anchor and a list that go together. */
  predicate FilesFit(db: Db, w: Write) {
    match w
    case OnHalf(PuttingRow(id, row)) => id in db.models ==> ValidFiles(row.file, db.models[id].pin.files)
    case OnHalf(PuttingFiles(id, files)) => id in db.models ==> ValidFiles(db.models[id].pin.file, files)
    case _ => true
  }

  /** UpdateModel validates a pin read before its transaction: the pin stays valid exactly when the list still has the anchor. */
  lemma PutRowKeepsValidExactly(d: Db, id: Id, row: PinRow)
    requires PinsValid(d.models)
    ensures PinsValid(PutRowOf(d, id, row).0.models) <==> FilesFit(d, OnHalf(PuttingRow(id, row)))
  {
    var e := PutRowOf(d, id, row).0;
    if id in d.models {
      assert e.models == d.models[id := WithRow(d.models[id], row)];
    }
  }

  /** SetModelFiles likewise. */
  lemma PutFilesKeepsValidExactly(d: Db, id: Id, files: seq<ModelFile>)
    requires PinsValid(d.models)
    ensures PinsValid(PutFiles(d, id, files).0.models) <==> FilesFit(d, OnHalf(PuttingFiles(id, files)))
  {
    var e := PutFiles(d, id, files).0;
    if id in d.models {
      assert e.models == d.models[id := d.models[id].(pin := d.models[id].pin.(files := files))];
    }
  }

  lemma HalfKeepsValidExactly(d: Db, h: HalfWrite)
    requires PinsValid(d.models)
    ensures PinsValid(ApplyHalf(d, h).0.models) <==> FilesFit(d, OnHalf(h))
  {
    match h
    case PuttingRow(id, row) => PutRowKeepsValidExactly(d, id, row);
    case PuttingFiles(id, files) => PutFilesKeepsValidExactly(d, id, files);
    case _ =>
  }

  lemma AnchorNamed(anchor: string)
    ensures ValidFiles(anchor, []) && Trim("a.gguf") == "a.gguf"
    ensures ValidFiles(anchor, [ModelFile("a.gguf", "", 0)]) <==> anchor == "" || anchor == "a.gguf"
  {
    assert Names([ModelFile("a.gguf", "", 0)]) == ["a.gguf"];
  }

  lemma CreatedPin(db: Db, id: Id, form: PinForm)
    requires id !in db.models && Parsed(form).Success?
    ensures var e := CreateModel(db, id, form).0;
            id in e.models && e.models[id].pin.file == form.file && e.models[id].pin.files == []
  {
  }

  lemma ListedPin(db: Db, id: Id, files: seq<ModelFile>)
    requires id in db.models && ValidFiles(db.models[id].pin.file, files)
    ensures var r := SetModelFiles(db, id, files); r.1.Done? && id in r.0.models && r.0.models[id].pin.files == files
  {
  }

  lemma MovedAnchor(db: Db, id: Id, form: PinForm)
    requires id in db.models && db.models[id].pin.files == [] && Parsed(form).Success?
    ensures UpdateModel(db, id, form).1.Done?
  {
  }

  /** The two checks and the two writes apart: the anchor is moved off a list that arrived in between. */
  lemma RacingAnchorBreaksPin(db: Db, id: Id, form: PinForm)
    requires id !in db.models && PinsValid(db.models) && Parsed(form).Success? && form.file == "a.gguf"
    ensures var moved := form.(file := "b.gguf");
            var created := CreateModel(db, id, form).0;
            var listed := SetModelFiles(created, id, [ModelFile("a.gguf", "", 0)]);
            && UpdateModel(created, id, moved).1.Done? && listed.1.Done? && PinsValid(listed.0.models)
            && !PinsValid(PutRowOf(listed.0, id, Parsed(moved).value).0.models)
  {
    var files, moved := [ModelFile("a.gguf", "", 0)], form.(file := "b.gguf");
    AnchorNamed(form.file);
    AnchorNamed(moved.file);
    CreatedPin(db, id, form);
    CreateModelKeepsValid(db, id, form);
    var created := CreateModel(db, id, form).0;
    MovedAnchor(created, id, moved);
    ListedPin(created, id, files);
    SetFilesKeepsValid(created, id, files);
    PutRowKeepsValidExactly(SetModelFiles(created, id, files).0, id, Parsed(moved).value);
  }

  ghost predicate SeedsValidIn(ws: seq<Write>) {
    forall w | w in ws :: SeedsOf(w)
  }

  lemma StepKeepsValidExactly(d: Db, w: Write)
    requires PinsValid(d.models) && SeedsOf(w)
    ensures PinsValid(Apply(d, w).0.models) <==> FilesFit(d, w)
  {
    match w
    case OnModel(mw) => ModelStepKeepsValid(d, mw);
    case OnSeed(SeedingModels(seeds)) => SeedPassKeepsValid(d.models, seeds);
    case OnHalf(h) => HalfKeepsValidExactly(d, h);
    case _ =>
  }

  ghost predicate PinsValidThroughout(d: Db, ws: seq<Write>)
    decreases |ws|
  {
    PinsValid(d.models) && (ws != [] ==> PinsValidThroughout(Apply(d, ws[0]).0, ws[1..]))
  }

  predicate AllFilesFit(d: Db, ws: seq<Write>)
    decreases |ws|
  {
    ws != [] ==> FilesFit(d, ws[0]) && AllFilesFit(Apply(d, ws[0]).0, ws[1..])
  }

  /**
    Over any run, checks and writes interleaved in any way, every stored pin passes ValidateModelFiles in
    every state exactly when each write half finds its anchor and its list still fitting as it lands.
   */
  lemma {:induction false} RunKeepsPinsValidExactly(d: Db, ws: seq<Write>)
    requires PinsValid(d.models) && SeedsValidIn(ws)
    ensures PinsValidThroughout(d, ws) <==> AllFilesFit(d, ws)
    decreases |ws|
  {
    if ws != [] {
      assert ws[0] in ws && forall w | w in ws[1..] :: w in ws;
      StepKeepsValidExactly(d, ws[0]);
      if FilesFit(d, ws[0]) {
        RunKeepsPinsValidExactly(Apply(d, ws[0]).0, ws[1..]);
      }
    }
  }

  /** So a run of whole writes keeps every stored pin valid. */
  lemma {:induction false} RunKeepsPinsValid(d: Db, ws: seq<Write>)
    requires PinsValid(d.models) && SeedsValidIn(ws) && forall w | w in ws :: !w.OnHalf?
    ensures PinsValidThroughout(d, ws) && PinsValid(Run(d, ws).models)
    decreases |ws|
  {
    if ws != [] {
      assert ws[0] in ws && forall w | w in ws[1..] :: w in ws;
      StepKeepsValidExactly(d, ws[0]);
      RunKeepsPinsValid(Apply(d, ws[0]).0, ws[1..]);
    }
  }

  // --- once-only defaults ---

  /** A default can be honoured when its pin is there, verified, and serves that purpose first. */
  predicate Honourable(models: map<Id, Model>, w: (Purpose, Id)) {
    w.1 in models && models[w.1].purpose == w.0 && models[w.1].pin.digest != ""
  }

  /** The first default for the purpose that can be honoured is `id`. */
  ghost predicate FirstDefault(models: map<Id, Model>, wants: seq<(Purpose, Id)>, p: Purpose, id: Id) {
    exists i | 0 <= i < |wants| ::
      && wants[i] == (p, id) && Honourable(models, wants[i])
      && forall j | 0 <= j < i && wants[j].0 == p :: !Honourable(models, wants[j])
  }

  lemma FirstDefaultNext(models: map<Id, Model>, wants: seq<(Purpose, Id)>, p: Purpose, id: Id)
    requires wants != [] && FirstDefault(models, wants[1..], p, id)
    requires wants[0].0 != p || !Honourable(models, wants[0])
    ensures FirstDefault(models, wants, p, id)
  {
    var rest := wants[1..];
    var i :| 0 <= i < |rest| && rest[i] == (p, id) && Honourable(models, rest[i])
      && forall j | 0 <= j < i && rest[j].0 == p :: !Honourable(models, rest[j]);
    assert wants[i + 1] == rest[i];
    forall j | 0 <= j < i + 1 && wants[j].0 == p ensures !Honourable(models, wants[j]) {
      if j > 0 { assert wants[j] == rest[j - 1]; }
    }
  }

  lemma {:induction false} FilledMeaning(db: Db, wants: seq<(Purpose, Id)>, out: map<Purpose, Id>, p: Purpose)
    requires db.assignments.Keys <= out.Keys
    ensures var r := FillAssignments(db, wants, out);
            && (p in out ==> p in r && r[p] == out[p])
            && (p in r && p !in out ==> FirstDefault(db.models, wants, p, r[p]))
            && (p !in r ==> forall w | w in wants && w.0 == p :: !Honourable(db.models, w))
    decreases |wants|
  {
    if wants != [] {
      var w := wants[0];
      var next := if PendingAssignment(db, w) && w.0 !in out then out[w.0 := w.1] else out;
      FilledMeaning(db, wants[1..], next, p);
      var r := FillAssignments(db, wants, out);
      if p in r && p !in out && p !in next {
        FirstDefaultNext(db.models, wants, p, r[p]);
      }
    }
  }

  lemma {:induction false} NothingPending(db: Db, wants: seq<(Purpose, Id)>, out: map<Purpose, Id>)
    requires NonePending(db, wants)
    ensures FillAssignments(db, wants, out) == out
    decreases |wants|
  {
    if wants != [] {
      assert wants[0] in wants && forall w | w in wants[1..] :: w in wants;
      NothingPending(db, wants[1..], out);
    }
  }

  lemma FirstPass(db: Db, wants: seq<(Purpose, Id)>)
    requires !db.assignmentsSeeded
    ensures var e := SeedAssignments(db, wants).0;
            e.assignmentsSeeded && e.assignments == FillAssignments(db, wants, db.assignments)
            && e.boxes == if NonePending(db, wants) then db.boxes else BumpAll(db).boxes
  {
    if NonePending(db, wants) { NothingPending(db, wants, db.assignments); }
  }

  /**
    The first pass answers every open purpose with its first default whose pin is there, verified and of that
    purpose, overwrites no answer, and bumps every box by one exactly when it answered something.
   */
  lemma SeedAssignmentsMeaning(db: Db, wants: seq<(Purpose, Id)>, p: Purpose)
    requires !db.assignmentsSeeded
    ensures var e := SeedAssignments(db, wants).0;
            && e.assignmentsSeeded
            && (p in db.assignments ==> p in e.assignments && e.assignments[p] == db.assignments[p])
            && (p in e.assignments && p !in db.assignments ==> FirstDefault(db.models, wants, p, e.assignments[p]))
            && (p !in e.assignments ==> forall w | w in wants && w.0 == p :: !Honourable(db.models, w))
  {
    FirstPass(db, wants);
    FilledMeaning(db, wants, db.assignments, p);
  }

  lemma FillsExactly(db: Db, wants: seq<(Purpose, Id)>)
    ensures FillAssignments(db, wants, db.assignments) == db.assignments <==> NonePending(db, wants)
  {
    if NonePending(db, wants) {
      NothingPending(db, wants, db.assignments);
    } else {
      var w :| w in wants && PendingAssignment(db, w);
      FilledMeaning(db, wants, db.assignments, w.0);
    }
  }

  lemma SeedAssignmentsBump(db: Db, wants: seq<(Purpose, Id)>, b: Id)
    requires !db.assignmentsSeeded && b in db.boxes
    ensures var e := SeedAssignments(db, wants).0;
            && b in e.boxes
            && e.boxes[b].version == db.boxes[b].version + if e.assignments == db.assignments then 0 else 1
  {
    FirstPass(db, wants);
    FillsExactly(db, wants);
  }

  /** The marker is never taken back, so no later pass changes the assignments. */
  lemma {:induction false} SeededForGood(d: Db, ws: seq<Write>, wants: seq<(Purpose, Id)>)
    requires d.assignmentsSeeded
    ensures Run(d, ws).assignmentsSeeded
    ensures SeedAssignments(Run(d, ws), wants) == (Run(d, ws), Missing)
    decreases |ws|
  {
    if ws != [] {
      SeededForGood(Apply(d, ws[0]).0, ws[1..], wants);
    }
  }
}
