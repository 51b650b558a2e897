/**
  What an admin's write does to the next manifest of every box: the manifest before, with exactly the
  written thing changed, one version on where the box was bumped and untouched where it was not.
 */
module EffectLaws {
  import opened Wrappers
  import opened BoxTables
  import opened BoxManifest
  import opened BoxWrites
  import opened ManifestLaws

  function NextBox(box: Box): Box {
    box.(version := box.version + 1)
  }

  function Next(m: Manifest): Manifest {
    m.(box := NextBox(m.box))
  }

  // --- manifests, part by part ---

  function LimitIn(f: Footprint, p: Purpose): Option<Limits> {
    ResolvedLimit(f.boxLimits, f.limits, p)
  }

  /** The entry a box's rows call for. */
  function EntryIn(f: Footprint, p: Purpose): Option<ModelEntry> {
    var id := ResolvedId(f.overrides, f.assignments, p);
    if id.None? || id.value !in f.pins then None else Some(EntryFor(p, id.value, f.pins[id.value], LimitIn(f, p)))
  }

  function ModelsIn(f: Footprint): map<Purpose, ModelEntry> {
    map p: Purpose | EntryIn(f, p).Some? :: EntryIn(f, p).value
  }

  function RostersIn(f: Footprint): map<Id, map<string, StaffView>> {
    map o | o in f.orgs && o in f.tuning :: Roster(f.staff, f.tuning[o])
  }

  ghost predicate PinsKnown(f: Footprint) {
    forall p :: PinKnown(f.overrides, f.assignments, f.pins, p)
  }

  /** A build succeeds exactly when every resolved pin is known, and its models are the entries the rows call for. */
  lemma ManifestModels(f: Footprint)
    ensures ManifestOf(f).Success? <==> PinsKnown(f)
    ensures PinsKnown(f) ==> ManifestOf(f) == Success(Manifest(f.box, f.orgs, RostersIn(f), f.narrator, ModelsIn(f)))
  {
    ResolvedPinsMeaning(f.overrides, f.assignments, f.pins);
    if PinsKnown(f) {
      var r := ResolvedPins(f.overrides, f.assignments, f.pins).value;
      var models := ManifestOf(f).value.models;
      forall p
        ensures p in models <==> p in ModelsIn(f)
        ensures p in models ==> models[p] == ModelsIn(f)[p]
      {
        assert Answers(f.overrides, f.assignments, f.pins, r, p);
        assert PinKnown(f.overrides, f.assignments, f.pins, p);
      }
      assert models == ModelsIn(f);
    }
  }

  function WithEntry(models: map<Purpose, ModelEntry>, p: Purpose, entry: Option<ModelEntry>): map<Purpose, ModelEntry> {
    if entry.Some? then models[p := entry.value] else models - {p}
  }

  lemma SameButOneKey<K, V>(a: map<K, V>, b: map<K, V>, k: K)
    requires forall q | q != k :: (q in b <==> q in a) && (q in a ==> b[q] == a[q])
    ensures b == if k in b then a[k := b[k]] else a - {k}
  {
  }

  lemma EntryListed(f: Footprint, p: Purpose)
    ensures EntryIn(f, p) == if p in ModelsIn(f) then Some(ModelsIn(f)[p]) else None
  {
  }

  /** Footprints that call for the same entries but for one purpose. */
  lemma OneEntry(f: Footprint, g: Footprint, p: Purpose)
    requires forall q | q != p :: EntryIn(g, q) == EntryIn(f, q)
    ensures ModelsIn(g) == WithEntry(ModelsIn(f), p, EntryIn(g, p))
  {
    var a, b := ModelsIn(f), ModelsIn(g);
    EntryListed(g, p);
    forall q | q != p ensures (q in b <==> q in a) && (q in a ==> b[q] == a[q]) {
      EntryListed(f, q);
      EntryListed(g, q);
    }
    SameButOneKey(a, b, p);
  }

  predicate SameButModels(f: Footprint, g: Footprint) {
    && g.box == f.box && g.orgs == f.orgs && g.staff == f.staff && g.tuning == f.tuning && g.narrator == f.narrator
  }

  /** A change in what one purpose calls for changes that purpose's entry and nothing else. */
  lemma OneEntryManifest(f: Footprint, g: Footprint, p: Purpose, m: Manifest)
    requires ManifestOf(f) == Success(m) && SameButModels(f, g) && PinsKnown(g)
    requires forall q | q != p :: EntryIn(g, q) == EntryIn(f, q)
    ensures ManifestOf(g) == Success(m.(models := WithEntry(m.models, p, EntryIn(g, p))))
  {
    ManifestModels(f);
    ManifestModels(g);
    OneEntry(f, g, p);
  }

  /** The bump at the end of a write moves the versions in its scope and nothing else. */
  lemma BumpedFootprint(mid: Db, ids: set<Id>, b: Id)
    requires b in mid.boxes
    ensures b in Bump(mid, ids).boxes
    ensures var f := FootprintOf(mid, b);
            FootprintOf(Bump(mid, ids), b) == if b in ids then f.(box := NextBox(f.box)) else f
  {
    assert BoundOrgs(Bump(mid, ids), b) == BoundOrgs(mid, b);
  }

  lemma BumpedManifest(mid: Db, ids: set<Id>, b: Id, m: Manifest)
    requires b in mid.boxes && ManifestOf(FootprintOf(mid, b)) == Success(m)
    ensures BuildManifest(Bump(mid, ids), b) == Success(if b in ids then Next(m) else m)
  {
    BumpedFootprint(mid, ids, b);
  }

  lemma PutRows<K, V>(table: map<Id, map<K, V>>, id: Id, p: K, row: V, b: Id)
    ensures RowsOf(PutRow(table, id, p, row), b) == if b == id then RowsOf(table, id)[p := row] else RowsOf(table, b)
    ensures RowsOf(DropRow(table, id, p), b) == if b == id then RowsOf(table, id) - {p} else RowsOf(table, b)
  {
  }

  // --- which pin serves a purpose ---

  /** A purpose that resolves elsewhere changes its entry alone, or breaks the build when its pin is gone. */
  lemma Redirected(f: Footprint, g: Footprint, p: Purpose, m: Manifest)
    requires ManifestOf(f) == Success(m) && SameButModels(f, g)
    requires g.pins == f.pins && g.boxLimits == f.boxLimits && g.limits == f.limits
    requires forall q | q != p :: ResolvedId(g.overrides, g.assignments, q) == ResolvedId(f.overrides, f.assignments, q)
    ensures ManifestOf(g).Success? <==> PinKnown(g.overrides, g.assignments, g.pins, p)
    ensures ManifestOf(g).Success? ==> ManifestOf(g) == Success(m.(models := WithEntry(m.models, p, EntryIn(g, p))))
  {
    ManifestModels(f);
    ManifestModels(g);
    forall q | q != p
      ensures PinKnown(g.overrides, g.assignments, g.pins, q) && EntryIn(g, q) == EntryIn(f, q)
    {
      assert PinKnown(f.overrides, f.assignments, f.pins, q);
    }
    if PinKnown(g.overrides, g.assignments, g.pins, p) {
      assert PinsKnown(g);
      OneEntryManifest(f, g, p, m);
    }
  }

  function WithOverrides(db: Db, overrides: map<Id, map<Purpose, Id>>): Db {
    db.(overrides := overrides)
  }

  lemma OverrideFootprint(db: Db, overrides: map<Id, map<Purpose, Id>>, b: Id)
    requires b in db.boxes
    ensures FootprintOf(WithOverrides(db, overrides), b) == FootprintOf(db, b).(overrides := RowsOf(overrides, b))
  {
    assert BoundOrgs(WithOverrides(db, overrides), b) == BoundOrgs(db, b);
  }

  lemma OverrideCommit(db: Db, boxId: Id, p: Purpose, modelId: Id)
    requires SetBoxModelOverride(db, boxId, Some(p), modelId).1.Done?
    ensures modelId in db.models && boxId in db.boxes
    ensures SetBoxModelOverride(db, boxId, Some(p), modelId).0 ==
            Bump(WithOverrides(db, PutRow(db.overrides, boxId, p, modelId)), {boxId})
  {
  }

  lemma OverriddenEntry(f: Footprint, g: Footprint, p: Purpose, modelId: Id)
    requires g == f.(overrides := f.overrides[p := modelId]) && modelId in f.pins && modelId != ""
    ensures ResolvedId(g.overrides, g.assignments, p) == Some(modelId)
    ensures EntryIn(g, p) == Some(EntryFor(p, modelId, f.pins[modelId], LimitIn(f, p)))
    ensures forall q | q != p :: ResolvedId(g.overrides, g.assignments, q) == ResolvedId(f.overrides, f.assignments, q)
  {
  }

  lemma OverriddenManifest(f: Footprint, g: Footprint, p: Purpose, modelId: Id, m: Manifest)
    requires g == f.(overrides := f.overrides[p := modelId]) && modelId in f.pins && modelId != ""
    requires ManifestOf(f) == Success(m)
    ensures ManifestOf(g) == Success(m.(models := m.models[p := EntryFor(p, modelId, f.pins[modelId], LimitIn(f, p))]))
  {
    OverriddenEntry(f, g, p, modelId);
    Redirected(f, g, p, m);
  }

  lemma OverriddenFootprint(db: Db, boxId: Id, p: Purpose, modelId: Id, b: Id)
    requires b in db.boxes
    ensures var f := FootprintOf(db, b);
            FootprintOf(WithOverrides(db, PutRow(db.overrides, boxId, p, modelId)), b) ==
              if b == boxId then f.(overrides := f.overrides[p := modelId]) else f
  {
    OverrideFootprint(db, PutRow(db.overrides, boxId, p, modelId), b);
    PutRows(db.overrides, boxId, p, modelId, b);
  }

  /** An override decides its purpose on its box, and nothing else there or anywhere. */
  lemma OverrideShows(db: Db, boxId: Id, p: Purpose, modelId: Id, b: Id, m: Manifest)
    requires SetBoxModelOverride(db, boxId, Some(p), modelId).1.Done? && modelId != ""
    requires BuildManifest(db, b) == Success(m)
    ensures modelId in db.models && BuildManifest(SetBoxModelOverride(db, boxId, Some(p), modelId).0, b) == Success(
      if b != boxId then m
      else Next(m).(models := m.models[p := EntryFor(p, modelId, db.models[modelId].pin, LimitIn(FootprintOf(db, b), p))]))
  {
    OverrideCommit(db, boxId, p, modelId);
    OverriddenFootprint(db, boxId, p, modelId, b);
    var mid := WithOverrides(db, PutRow(db.overrides, boxId, p, modelId));
    assert PinView(db.models)[modelId] == db.models[modelId].pin;
    if b == boxId {
      OverriddenManifest(FootprintOf(db, b), FootprintOf(mid, b), p, modelId, m);
    }
    BumpedManifest(mid, {boxId}, b, ManifestOf(FootprintOf(mid, b)).value);
  }

  lemma ClearedCommit(db: Db, boxId: Id, p: Purpose)
    requires ClearBoxModelOverride(db, boxId, p).1.Done?
    ensures p in RowsOf(db.overrides, boxId)
    ensures ClearBoxModelOverride(db, boxId, p).0 ==
            Bump(WithOverrides(db, DropRow(db.overrides, boxId, p)), {boxId})
  {
  }

  lemma ClearedFootprint(db: Db, boxId: Id, p: Purpose, b: Id)
    requires b in db.boxes
    ensures var f := FootprintOf(db, b);
            FootprintOf(WithOverrides(db, DropRow(db.overrides, boxId, p)), b) ==
              if b == boxId then f.(overrides := f.overrides - {p}) else f
  {
    OverrideFootprint(db, DropRow(db.overrides, boxId, p), b);
    PutRows(db.overrides, boxId, p, "", b);
  }

  /** The pin the fleet assigns to a purpose. */
  function FleetPin(f: Footprint, p: Purpose): Option<Id> {
    ResolvedId(map[], f.assignments, p)
  }

  function FleetEntry(f: Footprint, p: Purpose): Option<ModelEntry> {
    var id := FleetPin(f, p);
    if id.None? || id.value !in f.pins then None else Some(EntryFor(p, id.value, f.pins[id.value], LimitIn(f, p)))
  }

  lemma ClearedEntry(f: Footprint, g: Footprint, p: Purpose)
    requires g == f.(overrides := f.overrides - {p})
    ensures ResolvedId(g.overrides, g.assignments, p) == FleetPin(f, p) && EntryIn(g, p) == FleetEntry(f, p)
    ensures forall q | q != p :: ResolvedId(g.overrides, g.assignments, q) == ResolvedId(f.overrides, f.assignments, q)
  {
  }

  lemma ClearedManifest(f: Footprint, g: Footprint, p: Purpose, m: Manifest)
    requires g == f.(overrides := f.overrides - {p}) && ManifestOf(f) == Success(m)
    ensures ManifestOf(g).Success? <==> FleetPin(f, p).Some? ==> FleetPin(f, p).value in f.pins
    ensures ManifestOf(g).Success? ==> ManifestOf(g) == Success(m.(models := WithEntry(m.models, p, FleetEntry(f, p))))
  {
    ClearedEntry(f, g, p);
    Redirected(f, g, p, m);
  }

  lemma ClearStep(db: Db, boxId: Id, p: Purpose, b: Id)
    requires ClearBoxModelOverride(db, boxId, p).1.Done? && b in db.boxes
    ensures var e := ClearBoxModelOverride(db, boxId, p).0;
            var f := FootprintOf(db, b);
            && b in e.boxes
            && FootprintOf(e, b) ==
               if b == boxId then f.(box := NextBox(f.box), overrides := f.overrides - {p}) else f
  {
    ClearedCommit(db, boxId, p);
    ClearedFootprint(db, boxId, p, b);
    BumpedFootprint(WithOverrides(db, DropRow(db.overrides, boxId, p)), {boxId}, b);
  }

  lemma Reboxed(f: Footprint, box: Box)
    ensures ManifestOf(f).Success? <==> ManifestOf(f.(box := box)).Success?
    ensures ManifestOf(f).Success? ==> ManifestOf(f.(box := box)) == Success(ManifestOf(f).value.(box := box))
  {
  }

  /**
    Cleared, an override gives the purpose on its box back to the fleet's assignment; the build fails
    exactly when that pin is gone.
   */
  lemma ClearedOverrideShows(db: Db, boxId: Id, p: Purpose, b: Id, m: Manifest)
    requires ClearBoxModelOverride(db, boxId, p).1.Done? && BuildManifest(db, b) == Success(m)
    ensures var f, after := FootprintOf(db, b), BuildManifest(ClearBoxModelOverride(db, boxId, p).0, b);
            if b != boxId then after == Success(m)
            else if FleetPin(f, p).Some? && FleetPin(f, p).value !in db.models then after.Failure?
            else after == Success(Next(m).(models := WithEntry(m.models, p, FleetEntry(f, p))))
  {
    ClearStep(db, boxId, p, b);
    if b == boxId {
      ClearedBuild(FootprintOf(db, b), p, m);
    }
  }

  lemma ClearedBuild(f: Footprint, p: Purpose, m: Manifest)
    requires ManifestOf(f) == Success(m)
    ensures var after := ManifestOf(f.(box := NextBox(f.box), overrides := f.overrides - {p}));
            if FleetPin(f, p).Some? && FleetPin(f, p).value !in f.pins then after.Failure?
            else after == Success(Next(m).(models := WithEntry(m.models, p, FleetEntry(f, p))))
  {
    var g := f.(overrides := f.overrides - {p});
    ClearedManifest(f, g, p, m);
    Reboxed(g, NextBox(f.box));
  }

  lemma OverrideStep(db: Db, boxId: Id, p: Purpose, modelId: Id, b: Id)
    requires SetBoxModelOverride(db, boxId, Some(p), modelId).1.Done? && b in db.boxes
    ensures var mid := SetBoxModelOverride(db, boxId, Some(p), modelId).0;
            var f := FootprintOf(db, b);
            && b in mid.boxes
            && FootprintOf(mid, b) ==
               if b == boxId then f.(box := NextBox(f.box), overrides := f.overrides[p := modelId]) else f
  {
    OverrideCommit(db, boxId, p, modelId);
    OverriddenFootprint(db, boxId, p, modelId, b);
    BumpedFootprint(WithOverrides(db, PutRow(db.overrides, boxId, p, modelId)), {boxId}, b);
  }

  lemma UndoneFootprint(db: Db, boxId: Id, p: Purpose, modelId: Id, mid: Db, b: Id)
    requires SetBoxModelOverride(db, boxId, Some(p), modelId) == (mid, Done) && p !in RowsOf(db.overrides, boxId)
    requires b in db.boxes && p in RowsOf(mid.overrides, boxId)
    ensures var e := ClearBoxModelOverride(mid, boxId, p);
            var f := FootprintOf(db, b);
            && e.1.Done? && b in e.0.boxes
            && FootprintOf(e.0, b) == if b == boxId then f.(box := NextBox(NextBox(f.box))) else f
  {
    OverrideStep(db, boxId, p, modelId, b);
    ClearStep(mid, boxId, p, b);
    if b == boxId {
      assert RowsOf(db.overrides, b)[p := modelId] - {p} == RowsOf(db.overrides, b);
    }
  }

  lemma OverrideStored(db: Db, boxId: Id, p: Purpose, modelId: Id)
    requires SetBoxModelOverride(db, boxId, Some(p), modelId).1.Done?
    ensures p in RowsOf(SetBoxModelOverride(db, boxId, Some(p), modelId).0.overrides, boxId)
  {
    OverrideCommit(db, boxId, p, modelId);
    PutRows(db.overrides, boxId, p, modelId, boxId);
  }

  /** Setting an override and clearing it again gives every box the manifest it had, its own box two versions on. */
  lemma ClearUndoesOverride(db: Db, boxId: Id, p: Purpose, modelId: Id, mid: Db, b: Id, m: Manifest)
    requires SetBoxModelOverride(db, boxId, Some(p), modelId) == (mid, Done) && p !in RowsOf(db.overrides, boxId)
    requires BuildManifest(db, b) == Success(m)
    ensures ClearBoxModelOverride(mid, boxId, p).1.Done?
    ensures BuildManifest(ClearBoxModelOverride(mid, boxId, p).0, b) == Success(if b == boxId then Next(Next(m)) else m)
  {
    OverrideStored(db, boxId, p, modelId);
    UndoneFootprint(db, boxId, p, modelId, mid, b);
    Reboxed(FootprintOf(db, b), NextBox(NextBox(m.box)));
  }

  // --- the fleet's assignment ---

  function WithAssignment(db: Db, p: Purpose, modelId: Id): Db {
    db.(assignments := db.assignments[p := modelId])
  }

  lemma AssignedFootprint(db: Db, p: Purpose, modelId: Id, b: Id)
    requires b in db.boxes
    ensures var f := FootprintOf(db, b);
            FootprintOf(WithAssignment(db, p, modelId), b) == f.(assignments := f.assignments[p := modelId])
  {
    assert BoundOrgs(WithAssignment(db, p, modelId), b) == BoundOrgs(db, b);
  }

  lemma AssignmentCommit(db: Db, p: Purpose, modelId: Id)
    requires SetAssignment(db, Some(p), modelId).1.Done?
    ensures modelId in db.models
    ensures SetAssignment(db, Some(p), modelId).0 == BumpAll(WithAssignment(db, p, modelId))
  {
  }

  predicate Overridden(f: Footprint, p: Purpose) {
    p in f.overrides && f.overrides[p] != ""
  }

  lemma AssignedEntry(f: Footprint, g: Footprint, p: Purpose, modelId: Id)
    requires g == f.(assignments := f.assignments[p := modelId]) && modelId in f.pins && modelId != ""
    ensures Overridden(f, p) ==> ResolvedId(g.overrides, g.assignments, p) == ResolvedId(f.overrides, f.assignments, p)
    ensures !Overridden(f, p) ==> ResolvedId(g.overrides, g.assignments, p) == Some(modelId)
    ensures !Overridden(f, p) ==> EntryIn(g, p) == Some(EntryFor(p, modelId, f.pins[modelId], LimitIn(f, p)))
    ensures forall q | q != p :: ResolvedId(g.overrides, g.assignments, q) == ResolvedId(f.overrides, f.assignments, q)
  {
  }

  lemma SameEntries(f: Footprint, g: Footprint)
    requires forall q :: EntryIn(g, q) == EntryIn(f, q)
    ensures ModelsIn(g) == ModelsIn(f)
  {
  }

  lemma UnmovedManifest(f: Footprint, g: Footprint, m: Manifest)
    requires ManifestOf(f) == Success(m) && SameButModels(f, g)
    requires g.pins == f.pins && g.boxLimits == f.boxLimits && g.limits == f.limits
    requires forall q :: ResolvedId(g.overrides, g.assignments, q) == ResolvedId(f.overrides, f.assignments, q)
    ensures ManifestOf(g) == Success(m)
  {
    ManifestModels(f);
    ManifestModels(g);
    forall q ensures PinKnown(g.overrides, g.assignments, g.pins, q) && EntryIn(g, q) == EntryIn(f, q) {
      assert PinKnown(f.overrides, f.assignments, f.pins, q);
    }
    SameEntries(f, g);
  }

  lemma AssignedManifest(f: Footprint, g: Footprint, p: Purpose, modelId: Id, m: Manifest)
    requires g == f.(assignments := f.assignments[p := modelId]) && modelId in f.pins && modelId != ""
    requires ManifestOf(f) == Success(m)
    ensures ManifestOf(g) == Success(
      if Overridden(f, p) then m
      else m.(models := m.models[p := EntryFor(p, modelId, f.pins[modelId], LimitIn(f, p))]))
  {
    AssignedEntry(f, g, p, modelId);
    if Overridden(f, p) {
      UnmovedManifest(f, g, m);
    } else {
      Redirected(f, g, p, m);
    }
  }

  /** An assignment shows on exactly the boxes that do not override its purpose; every box is one version on. */
  lemma AssignmentShows(db: Db, p: Purpose, modelId: Id, b: Id, m: Manifest)
    requires SetAssignment(db, Some(p), modelId).1.Done? && modelId != "" && BuildManifest(db, b) == Success(m)
    ensures modelId in db.models && BuildManifest(SetAssignment(db, Some(p), modelId).0, b) == Success(
      if Overridden(FootprintOf(db, b), p) then Next(m)
      else Next(m).(models := m.models[p := EntryFor(p, modelId, db.models[modelId].pin, LimitIn(FootprintOf(db, b), p))]))
  {
    var mid := WithAssignment(db, p, modelId);
    AssignmentCommit(db, p, modelId);
    AssignedFootprint(db, p, modelId, b);
    assert PinView(db.models)[modelId] == db.models[modelId].pin;
    AssignedManifest(FootprintOf(db, b), FootprintOf(mid, b), p, modelId, m);
    BumpedManifest(mid, mid.boxes.Keys, b, ManifestOf(FootprintOf(mid, b)).value);
  }

  // --- limits ---

  /** A purpose's entry with another limit, where the purpose has an entry and carries limits at all. */
  function RelimitedModels(models: map<Purpose, ModelEntry>, p: Purpose, limit: Option<Limits>): map<Purpose, ModelEntry> {
    if p in models && Generative(p) then models[p := models[p].(limits := ManifestLimits(limit))] else models
  }

  function Relimited(m: Manifest, p: Purpose, limit: Option<Limits>): Manifest {
    m.(models := RelimitedModels(m.models, p, limit))
  }

  lemma RelimitedEntry(f: Footprint, g: Footprint, p: Purpose)
    requires g.pins == f.pins && g.overrides == f.overrides && g.assignments == f.assignments
    ensures LimitIn(g, p) == LimitIn(f, p) ==> EntryIn(g, p) == EntryIn(f, p)
    ensures EntryIn(g, p).Some? <==> EntryIn(f, p).Some?
    ensures EntryIn(f, p).Some? ==>
              EntryIn(g, p) == Some(if Generative(p) then EntryIn(f, p).value.(limits := ManifestLimits(LimitIn(g, p)))
                                    else EntryIn(f, p).value)
  {
  }

  lemma RelimitedEntries(f: Footprint, g: Footprint, p: Purpose)
    requires g.pins == f.pins && g.overrides == f.overrides && g.assignments == f.assignments
    ensures WithEntry(ModelsIn(f), p, EntryIn(g, p)) == RelimitedModels(ModelsIn(f), p, LimitIn(g, p))
  {
    RelimitedEntry(f, g, p);
    EntryListed(f, p);
  }

  lemma RelimitedKnown(f: Footprint, g: Footprint, m: Manifest)
    requires ManifestOf(f) == Success(m)
    requires g.pins == f.pins && g.overrides == f.overrides && g.assignments == f.assignments
    ensures PinsKnown(g) && m.models == ModelsIn(f)
  {
    ManifestModels(f);
    forall q ensures PinKnown(g.overrides, g.assignments, g.pins, q) {
      assert PinKnown(f.overrides, f.assignments, f.pins, q);
    }
  }

  lemma RelimitedManifest(f: Footprint, g: Footprint, p: Purpose, m: Manifest)
    requires ManifestOf(f) == Success(m) && SameButModels(f, g)
    requires g.pins == f.pins && g.overrides == f.overrides && g.assignments == f.assignments
    requires forall q | q != p :: LimitIn(g, q) == LimitIn(f, q)
    ensures ManifestOf(g) == Success(Relimited(m, p, LimitIn(g, p)))
  {
    RelimitedKnown(f, g, m);
    forall q | q != p ensures EntryIn(g, q) == EntryIn(f, q) {
      RelimitedEntry(f, g, q);
    }
    OneEntryManifest(f, g, p, m);
    RelimitedEntries(f, g, p);
  }

  function WithLimits(db: Db, boxLimits: map<Id, map<Purpose, Limits>>, limits: map<Purpose, Limits>): Db {
    db.(boxLimits := boxLimits, limits := limits)
  }

  lemma LimitFootprint(db: Db, boxLimits: map<Id, map<Purpose, Limits>>, limits: map<Purpose, Limits>, b: Id)
    requires b in db.boxes
    ensures FootprintOf(WithLimits(db, boxLimits, limits), b) ==
            FootprintOf(db, b).(boxLimits := RowsOf(boxLimits, b), limits := limits)
  {
    assert BoundOrgs(WithLimits(db, boxLimits, limits), b) == BoundOrgs(db, b);
  }

  function LimitAt(db: Db, b: Id, p: Purpose): Option<Limits> {
    ResolvedLimit(RowsOf(db.boxLimits, b), db.limits, p)
  }

  lemma LimitedManifest(db: Db, boxLimits: map<Id, map<Purpose, Limits>>, limits: map<Purpose, Limits>,
                        ids: set<Id>, p: Purpose, limit: Option<Limits>, b: Id, m: Manifest)
    requires BuildManifest(db, b) == Success(m) && ResolvedLimit(RowsOf(boxLimits, b), limits, p) == limit
    requires forall q | q != p :: ResolvedLimit(RowsOf(boxLimits, b), limits, q) == LimitAt(db, b, q)
    ensures BuildManifest(Bump(WithLimits(db, boxLimits, limits), ids), b) ==
            Success(if b in ids then Next(Relimited(m, p, limit)) else Relimited(m, p, limit))
  {
    var mid := WithLimits(db, boxLimits, limits);
    LimitFootprint(db, boxLimits, limits, b);
    RelimitedManifest(FootprintOf(db, b), FootprintOf(mid, b), p, m);
    BumpedManifest(mid, ids, b, Relimited(m, p, limit));
  }

  lemma KeptEntry(f: Footprint, p: Purpose)
    ensures RelimitedModels(ModelsIn(f), p, LimitIn(f, p)) == ModelsIn(f)
  {
    EntryListed(f, p);
  }

  lemma KeptLimit(db: Db, b: Id, p: Purpose, m: Manifest)
    requires BuildManifest(db, b) == Success(m)
    ensures Relimited(m, p, LimitAt(db, b, p)) == m
  {
    RelimitedKnown(FootprintOf(db, b), FootprintOf(db, b), m);
    KeptEntry(FootprintOf(db, b), p);
  }

  lemma BoxLimitCommit(db: Db, boxId: Id, p: Purpose, l: Limits)
    requires SetBoxLimit(db, boxId, Some(p), l).1.Done?
    ensures SetBoxLimit(db, boxId, Some(p), l).0 ==
            Bump(WithLimits(db, PutRow(db.boxLimits, boxId, p, l), db.limits), {boxId})
  {
  }

  lemma BoxLimitAt(db: Db, boxId: Id, p: Purpose, l: Limits, b: Id)
    ensures var rows := RowsOf(PutRow(db.boxLimits, boxId, p, l), b);
            && ResolvedLimit(rows, db.limits, p) == (if b == boxId then Some(l) else LimitAt(db, b, p))
            && forall q | q != p :: ResolvedLimit(rows, db.limits, q) == LimitAt(db, b, q)
  {
  }

  /** A box's own limit wins over the fleet's on that box, on purposes that carry limits, and shows nowhere else. */
  lemma BoxLimitShows(db: Db, boxId: Id, p: Purpose, l: Limits, b: Id, m: Manifest)
    requires SetBoxLimit(db, boxId, Some(p), l).1.Done? && BuildManifest(db, b) == Success(m)
    ensures BuildManifest(SetBoxLimit(db, boxId, Some(p), l).0, b) ==
            Success(if b == boxId then Next(Relimited(m, p, Some(l))) else m)
  {
    var limit := if b == boxId then Some(l) else LimitAt(db, b, p);
    BoxLimitCommit(db, boxId, p, l);
    BoxLimitAt(db, boxId, p, l, b);
    KeptLimit(db, b, p, m);
    LimitedManifest(db, PutRow(db.boxLimits, boxId, p, l), db.limits, {boxId}, p, limit, b, m);
  }

  lemma ClearedLimitCommit(db: Db, boxId: Id, p: Purpose)
    requires ClearBoxLimit(db, boxId, p).1.Done?
    ensures ClearBoxLimit(db, boxId, p).0 == Bump(WithLimits(db, DropRow(db.boxLimits, boxId, p), db.limits), {boxId})
  {
  }

  lemma ClearedLimitAt(db: Db, boxId: Id, p: Purpose, b: Id)
    ensures var rows := RowsOf(DropRow(db.boxLimits, boxId, p), b);
            && ResolvedLimit(rows, db.limits, p) ==
               (if b == boxId then ResolvedLimit(map[], db.limits, p) else LimitAt(db, b, p))
            && forall q | q != p :: ResolvedLimit(rows, db.limits, q) == LimitAt(db, b, q)
  {
  }

  /** Cleared, the fleet's limit shows again. */
  lemma ClearedBoxLimitShows(db: Db, boxId: Id, p: Purpose, b: Id, m: Manifest)
    requires ClearBoxLimit(db, boxId, p).1.Done? && BuildManifest(db, b) == Success(m)
    ensures BuildManifest(ClearBoxLimit(db, boxId, p).0, b) ==
            Success(if b == boxId then Next(Relimited(m, p, ResolvedLimit(map[], db.limits, p))) else m)
  {
    var limit := if b == boxId then ResolvedLimit(map[], db.limits, p) else LimitAt(db, b, p);
    ClearedLimitCommit(db, boxId, p);
    ClearedLimitAt(db, boxId, p, b);
    KeptLimit(db, b, p, m);
    LimitedManifest(db, DropRow(db.boxLimits, boxId, p), db.limits, {boxId}, p, limit, b, m);
  }

  lemma FleetLimitCommit(db: Db, p: Purpose, l: Limits)
    requires SetLimit(db, Some(p), l).1.Done?
    ensures SetLimit(db, Some(p), l).0 == BumpAll(WithLimits(db, db.boxLimits, db.limits[p := l]))
  {
  }

  lemma FleetLimitAt(db: Db, p: Purpose, l: Limits, b: Id)
    ensures var rows := RowsOf(db.boxLimits, b);
            && ResolvedLimit(rows, db.limits[p := l], p) == (if p in rows then LimitAt(db, b, p) else Some(l))
            && forall q | q != p :: ResolvedLimit(rows, db.limits[p := l], q) == LimitAt(db, b, q)
  {
  }

  /** The fleet's limit shows on exactly the boxes without their own; every box is one version on. */
  lemma FleetLimitShows(db: Db, p: Purpose, l: Limits, b: Id, m: Manifest)
    requires SetLimit(db, Some(p), l).1.Done? && BuildManifest(db, b) == Success(m)
    ensures BuildManifest(SetLimit(db, Some(p), l).0, b) ==
            Success(Next(if p in RowsOf(db.boxLimits, b) then m else Relimited(m, p, Some(l))))
  {
    var limit := if p in RowsOf(db.boxLimits, b) then LimitAt(db, b, p) else Some(l);
    FleetLimitCommit(db, p, l);
    FleetLimitAt(db, p, l, b);
    KeptLimit(db, b, p, m);
    LimitedManifest(db, db.boxLimits, db.limits[p := l], db.boxes.Keys, p, limit, b, m);
  }
}
