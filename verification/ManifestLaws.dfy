/** What a manifest means, write by write: resolution, exceptions to coherence, and undo. */
module ManifestLaws {
  import opened Wrappers
  import opened BoxTables
  import opened BoxManifest
  import opened BoxWrites
  import opened BoxCoherence
  import opened ModelFiles

  // --- resolution ---

  lemma PurposeIndex(p: Purpose) returns (i: nat)
    ensures i < |PURPOSE_ORDER| && PURPOSE_ORDER[i] == p
  {
    i := match p
      case Persona => 0 case Worker => 1 case Narrator => 2 case Embedding => 3 case Stt => 4
      case Vad => 5 case Turn => 6 case Tts => 7 case Classification => 8;
  }

  lemma PurposesDiffer()
    ensures forall j, k | 0 <= j < k < |PURPOSE_ORDER| :: PURPOSE_ORDER[j] != PURPOSE_ORDER[k]
  {
  }

  ghost predicate PinKnown(overrides: map<Purpose, Id>, assignments: map<Purpose, Id>, pins: map<Id, Pin>, p: Purpose) {
    var id := ResolvedId(overrides, assignments, p);
    id.Some? ==> id.value in pins
  }

  ghost predicate Answers(overrides: map<Purpose, Id>, assignments: map<Purpose, Id>, pins: map<Id, Pin>,
                          roster: map<Purpose, (Id, Pin)>, p: Purpose)
  {
    var id := ResolvedId(overrides, assignments, p);
    && (p in roster <==> id.Some?)
    && (id.Some? ==> id.value in pins && roster[p] == (id.value, pins[id.value]))
  }

  lemma {:induction false} ResolvedFromMeaning(overrides: map<Purpose, Id>, assignments: map<Purpose, Id>,
                                               pins: map<Id, Pin>, i: nat, out: map<Purpose, (Id, Pin)>)
    requires i <= |PURPOSE_ORDER|
    requires forall j | 0 <= j < i :: Answers(overrides, assignments, pins, out, PURPOSE_ORDER[j])
    requires forall j | i <= j < |PURPOSE_ORDER| :: PURPOSE_ORDER[j] !in out
    ensures ResolvedFrom(overrides, assignments, pins, i, out).Success? <==>
              forall j | i <= j < |PURPOSE_ORDER| :: PinKnown(overrides, assignments, pins, PURPOSE_ORDER[j])
    ensures var r := ResolvedFrom(overrides, assignments, pins, i, out);
            r.Success? ==> forall j | 0 <= j < |PURPOSE_ORDER| :: Answers(overrides, assignments, pins, r.value, PURPOSE_ORDER[j])
    decreases |PURPOSE_ORDER| - i
  {
    if i < |PURPOSE_ORDER| {
      var p := PURPOSE_ORDER[i];
      var id := ResolvedId(overrides, assignments, p);
      PurposesDiffer();
      if id.None? {
        ResolvedFromMeaning(overrides, assignments, pins, i + 1, out);
      } else if id.value in pins {
        ResolvedFromMeaning(overrides, assignments, pins, i + 1, out[p := (id.value, pins[id.value])]);
      } else {
        assert !PinKnown(overrides, assignments, pins, PURPOSE_ORDER[i]);
      }
    }
  }

  /** The roster is override-else-factory for every purpose, and fails exactly when some purpose's pin is gone. */
  lemma ResolvedPinsMeaning(overrides: map<Purpose, Id>, assignments: map<Purpose, Id>, pins: map<Id, Pin>)
    ensures ResolvedPins(overrides, assignments, pins).Success? <==> forall p :: PinKnown(overrides, assignments, pins, p)
    ensures var r := ResolvedPins(overrides, assignments, pins);
            r.Success? ==> forall p :: Answers(overrides, assignments, pins, r.value, p)
  {
    ResolvedFromMeaning(overrides, assignments, pins, 0, map[]);
    var r := ResolvedPins(overrides, assignments, pins);
    forall p
      ensures r.Success? ==> Answers(overrides, assignments, pins, r.value, p)
    {
      var j := PurposeIndex(p);
    }
    if r.Success? {
      assert forall p :: Answers(overrides, assignments, pins, r.value, p) ==> PinKnown(overrides, assignments, pins, p);
    }
  }

  // --- every pin referenced exists ---

  ghost predicate Refs(pins: set<Id>, assignments: map<Purpose, Id>, overrides: map<Id, map<Purpose, Id>>) {
    && (forall p | p in assignments :: assignments[p] in pins)
    && (forall b, p | b in overrides && p in overrides[b] :: overrides[b][p] in pins)
  }

  ghost predicate RefsExist(db: Db) {
    Refs(db.models.Keys, db.assignments, db.overrides)
  }

  lemma {:induction false} SeedPassKeepsPins(models: map<Id, Model>, seeds: seq<SeedModel>)
    ensures models.Keys <= SeedPass(models, seeds).Keys
    decreases |seeds|
  {
    if seeds != [] {
      SeedPassKeepsPins(SeedOne(models, seeds[0]), seeds[1..]);
    }
  }

  lemma {:induction false} FilledRefsExist(db: Db, wants: seq<(Purpose, Id)>, out: map<Purpose, Id>)
    requires forall p | p in out :: out[p] in db.models
    ensures forall p | p in FillAssignments(db, wants, out) :: FillAssignments(db, wants, out)[p] in db.models
    decreases |wants|
  {
    if wants != [] {
      var w := wants[0];
      var next := if PendingAssignment(db, w) && w.0 !in out then out[w.0 := w.1] else out;
      FilledRefsExist(db, wants[1..], next);
      assert FillAssignments(db, wants, out) == FillAssignments(db, wants[1..], next);
    } else {
      assert FillAssignments(db, wants, out) == out;
    }
  }

  lemma PutRefKept(pins: set<Id>, overrides: map<Id, map<Purpose, Id>>, id: Id, p: Purpose, modelId: Id)
    requires Refs(pins, map[], overrides)
    ensures modelId in pins ==> Refs(pins, map[], PutRow(overrides, id, p, modelId))
    ensures Refs(pins, map[], DropRow(overrides, id, p))
  {
  }

  /** Dropping a pin keeps every reference exactly when nothing points at it. */
  lemma DroppedRefs(pins: set<Id>, assignments: map<Purpose, Id>, overrides: map<Id, map<Purpose, Id>>, id: Id)
    requires Refs(pins, assignments, overrides)
    ensures Refs(pins - {id}, assignments, overrides) <==> !InUse(assignments, overrides, id)
  {
  }

  lemma SetAssignmentKeepsRefs(d: Db, raw: Option<Purpose>, modelId: Id)
    requires RefsExist(d)
    ensures RefsExist(SetAssignment(d, raw, modelId).0)
  {
  }

  lemma ClearAssignmentKeepsRefs(d: Db, purpose: Purpose)
    requires RefsExist(d)
    ensures RefsExist(ClearAssignment(d, purpose).0)
  {
  }

  lemma SetOverrideKeepsRefs(d: Db, id: Id, raw: Option<Purpose>, modelId: Id)
    requires RefsExist(d)
    ensures RefsExist(SetBoxModelOverride(d, id, raw, modelId).0)
  {
    if raw.Some? {
      PutRefKept(d.models.Keys, d.overrides, id, raw.value, modelId);
    }
  }

  lemma ClearOverrideKeepsRefs(d: Db, id: Id, purpose: Purpose)
    requires RefsExist(d)
    ensures RefsExist(ClearBoxModelOverride(d, id, purpose).0)
  {
    PutRefKept(d.models.Keys, d.overrides, id, purpose, "");
  }

  lemma RefsKept(d: Db, e: Db)
    requires RefsExist(d) && e.models.Keys >= d.models.Keys
    requires e.assignments == d.assignments && e.overrides == d.overrides
    ensures RefsExist(e)
  {
  }

  lemma CreateModelKeepsPins(d: Db, id: Id, form: PinForm)
    ensures d.models.Keys <= CreateModel(d, id, form).0.models.Keys
  {
  }

  lemma UpdateModelKeepsPins(d: Db, id: Id, form: PinForm)
    ensures d.models.Keys <= UpdateModel(d, id, form).0.models.Keys
  {
  }

  lemma SetFilesKeepsPins(d: Db, id: Id, files: seq<ModelFile>)
    ensures d.models.Keys <= SetModelFiles(d, id, files).0.models.Keys
  {
  }

  lemma SetMetaKeepsPins(d: Db, id: Id, learned: Learned, size: int)
    ensures d.models.Keys <= SetModelMeta(d, id, learned, size).0.models.Keys
  {
  }

  lemma ModelStepKeepsPins(d: Db, w: ModelWrite)
    requires !w.DeletingModel?
    ensures d.models.Keys <= ApplyModel(d, w).0.models.Keys
  {
    match w
    case CreatingModel(id, form) => CreateModelKeepsPins(d, id, form);
    case UpdatingModel(id, form) => UpdateModelKeepsPins(d, id, form);
    case SettingFiles(id, files) => SetFilesKeepsPins(d, id, files);
    case SettingMeta(id, learned, size) => SetMetaKeepsPins(d, id, learned, size);
  }

  lemma ModelStepKeepsRefs(d: Db, w: ModelWrite)
    requires RefsExist(d)
    ensures RefsExist(ApplyModel(d, w).0)
  {
    var e := ApplyModel(d, w).0;
    if w.DeletingModel? {
      DeleteModelKeepsRefs(d, w.id);
    } else {
      ModelStepKeepsPins(d, w);
      RefsKept(d, e);
    }
  }

  lemma DeleteModelKeepsRefs(d: Db, id: Id)
    requires RefsExist(d)
    ensures RefsExist(DeleteModel(d, id).0)
  {
    if !ModelInUse(d, id) {
      DropModelKeepsRefsExactly(d, id);
    }
  }

  lemma SeedModelsKeepsRefs(d: Db, seeds: seq<SeedModel>)
    requires RefsExist(d)
    ensures RefsExist(ApplySeed(d, SeedingModels(seeds)).0)
  {
    var e := ApplySeed(d, SeedingModels(seeds)).0;
    SeedPassKeepsPins(d.models, seeds);
    assert e.models == if SeedChanges(d.models, seeds) then SeedPass(d.models, seeds) else d.models;
    RefsKept(d, e);
  }

  lemma SeedAssignmentsKeepsRefs(d: Db, picks: seq<(Purpose, Id)>)
    requires RefsExist(d)
    ensures RefsExist(SeedAssignments(d, picks).0)
  {
    FilledRefsExist(d, picks, d.assignments);
  }

  lemma DroppedRowRefs(d: Db, e: Db, id: Id)
    requires RefsExist(d) && e.models == d.models && e.assignments == d.assignments
    requires e.overrides == d.overrides - {id}
    ensures RefsExist(e)
  {
  }

  /** Whole writes never leave a dangling reference. */
  lemma StepKeepsRefs(d: Db, w: Write)
    requires RefsExist(d) && !w.OnHalf?
    ensures RefsExist(Apply(d, w).0)
  {
    match w
    case OnPin(SettingAssignment(raw, modelId)) => SetAssignmentKeepsRefs(d, raw, modelId);
    case OnPin(ClearingAssignment(purpose)) => ClearAssignmentKeepsRefs(d, purpose);
    case OnPin(SettingOverride(id, raw, modelId)) => SetOverrideKeepsRefs(d, id, raw, modelId);
    case OnPin(ClearingOverride(id, purpose)) => ClearOverrideKeepsRefs(d, id, purpose);
    case OnModel(mw) => ModelStepKeepsRefs(d, mw);
    case OnSeed(SeedingModels(seeds)) => SeedModelsKeepsRefs(d, seeds);
    case OnSeed(SeedingAssignments(picks)) => SeedAssignmentsKeepsRefs(d, picks);
    case OnSeed(SeedingLimits(_)) => RefsKept(d, Apply(d, w).0);
    case OnBox(bw) =>
      if ApplyBox(d, bw).0.overrides == d.overrides {
        RefsKept(d, ApplyBox(d, bw).0);
      } else {
        DroppedRowRefs(d, ApplyBox(d, bw).0, bw.id);
      }
    case OnOrg(ow) => RefsKept(d, ApplyOrg(d, ow).0);
    case OnLimit(lw) => RefsKept(d, ApplyLimit(d, lw).0);
  }

  /** Whether a write half that lands now finds what its check saw: the pin still there, or still unused. */
  predicate PointsWell(db: Db, w: Write) {
    match w
    case OnHalf(DroppingModel(id)) => !(id in db.models && ModelInUse(db, id))
    case OnHalf(PuttingAssignment(_, modelId)) => modelId in db.models
    case OnHalf(PuttingOverride(_, _, modelId)) => modelId in db.models
    case _ => true
  }

  lemma HalfKeepsRefsExactly(d: Db, h: HalfWrite)
    requires RefsExist(d)
    ensures RefsExist(ApplyHalf(d, h).0) <==> PointsWell(d, OnHalf(h))
  {
    match h
    case PuttingRow(id, row) => RefsKept(d, PutRowOf(d, id, row).0);
    case PuttingFiles(id, files) => RefsKept(d, PutFiles(d, id, files).0);
    case DroppingModel(id) => DropModelKeepsRefsExactly(d, id);
    case PuttingAssignment(purpose, modelId) => PutAssignmentKeepsRefsExactly(d, purpose, modelId);
    case PuttingOverride(id, purpose, modelId) => PutOverrideKeepsRefsExactly(d, id, purpose, modelId);
  }

  lemma StepKeepsRefsExactly(d: Db, w: Write)
    requires RefsExist(d)
    ensures RefsExist(Apply(d, w).0) <==> PointsWell(d, w)
  {
    if w.OnHalf? {
      HalfKeepsRefsExactly(d, w.half);
    } else {
      StepKeepsRefs(d, w);
    }
  }

  ghost predicate RefsThroughout(d: Db, ws: seq<Write>)
    decreases |ws|
  {
    RefsExist(d) && (ws != [] ==> RefsThroughout(Apply(d, ws[0]).0, ws[1..]))
  }

  predicate AllPointWell(d: Db, ws: seq<Write>)
    decreases |ws|
  {
    ws != [] ==> PointsWell(d, ws[0]) && AllPointWell(Apply(d, ws[0]).0, ws[1..])
  }

  /**
    Over any run, checks and writes interleaved in any way, every reference exists in every state exactly
    when each write half finds its pin still there, or still unused, at the moment it lands.
   */
  lemma {:induction false} RunKeepsRefsExactly(d: Db, ws: seq<Write>)
    requires RefsExist(d)
    ensures RefsThroughout(d, ws) <==> AllPointWell(d, ws)
    decreases |ws|
  {
    if ws != [] {
      StepKeepsRefsExactly(d, ws[0]);
      if PointsWell(d, ws[0]) {
        RunKeepsRefsExactly(Apply(d, ws[0]).0, ws[1..]);
      }
    }
  }

  /** So a run of whole writes, none caught between its check and its write, keeps every reference. */
  lemma {:induction false} RunKeepsRefs(d: Db, ws: seq<Write>)
    requires RefsExist(d) && forall w | w in ws :: !w.OnHalf?
    ensures RefsThroughout(d, ws) && RefsExist(Run(d, ws))
    decreases |ws|
  {
    if ws != [] {
      assert ws[0] in ws && forall w | w in ws[1..] :: w in ws;
      StepKeepsRefs(d, ws[0]);
      RunKeepsRefs(Apply(d, ws[0]).0, ws[1..]);
    }
  }

  /** So the "no longer in the registry" error never comes out of an undisturbed build. */
  lemma RefsExistBuilds(db: Db, boxId: Id)
    requires RefsExist(db) && boxId in db.boxes
    ensures BuildManifest(db, boxId).Success?
    ensures forall p :: Answers(RowsOf(db.overrides, boxId), db.assignments, PinView(db.models),
              ResolvedPins(RowsOf(db.overrides, boxId), db.assignments, PinView(db.models)).value, p)
  {
    ResolvedPinsMeaning(RowsOf(db.overrides, boxId), db.assignments, PinView(db.models));
  }

  /**
    The in-use read runs before the delete's transaction. The delete keeps every reference exactly
    when the pin is still unused at the moment the row goes.
   */
  lemma DropModelKeepsRefsExactly(db: Db, id: Id)
    requires RefsExist(db)
    ensures RefsExist(DropModel(db, id).0) <==> !(id in db.models && ModelInUse(db, id))
  {
    DroppedRefs(db.models.Keys, db.assignments, db.overrides, id);
    if id in db.models {
      assert DropModel(db, id).0.models.Keys == db.models.Keys - {id};
    }
  }

  lemma PutRefExactly(pins: set<Id>, overrides: map<Id, map<Purpose, Id>>, id: Id, p: Purpose, modelId: Id)
    requires Refs(pins, map[], overrides)
    ensures Refs(pins, map[], PutRow(overrides, id, p, modelId)) <==> modelId in pins
  {
    var after := PutRow(overrides, id, p, modelId);
    assert id in after && p in after[id] && after[id][p] == modelId;
  }

  lemma AssignRefExactly(pins: set<Id>, assignments: map<Purpose, Id>, overrides: map<Id, map<Purpose, Id>>,
                         p: Purpose, modelId: Id)
    requires Refs(pins, assignments, overrides)
    ensures Refs(pins, assignments[p := modelId], overrides) <==> modelId in pins
  {
    assert p in assignments[p := modelId] && assignments[p := modelId][p] == modelId;
  }

  /**
    The pin is read before the write's transaction, too. An assignment keeps every reference exactly
    when its pin is still there at the moment the row lands.
   */
  lemma PutAssignmentKeepsRefsExactly(db: Db, p: Purpose, modelId: Id)
    requires RefsExist(db)
    ensures RefsExist(PutAssignment(db, p, modelId).0) <==> modelId in db.models
  {
    AssignRefExactly(db.models.Keys, db.assignments, db.overrides, p, modelId);
  }

  /** So does an override. */
  lemma PutOverrideKeepsRefsExactly(db: Db, boxId: Id, p: Purpose, modelId: Id)
    requires RefsExist(db)
    ensures RefsExist(PutOverride(db, boxId, p, modelId).0) <==> modelId in db.models
  {
    PutRefExactly(db.models.Keys, db.overrides, boxId, p, modelId);
  }

  lemma DanglingFails(db: Db, boxId: Id, p: Purpose)
    requires boxId in db.boxes && p !in RowsOf(db.overrides, boxId)
    requires p in db.assignments && db.assignments[p] != "" && db.assignments[p] !in db.models
    ensures BuildManifest(db, boxId).Failure?
  {
    ResolvedPinsMeaning(RowsOf(db.overrides, boxId), db.assignments, PinView(db.models));
    assert !PinKnown(RowsOf(db.overrides, boxId), db.assignments, PinView(db.models), p);
  }

  /** An assignment that lands between the read and the delete dangles, and the box's next build fails. */
  lemma InterleavedDeleteDangles(db: Db, id: Id, p: Purpose, boxId: Id)
    requires id != "" && boxId in db.boxes && p !in RowsOf(db.overrides, boxId)
    requires !ModelInUse(db, id) && PinRefusal(db, p, id).None?
    ensures BuildManifest(DropModel(SetAssignment(db, Some(p), id).0, id).0, boxId).Failure?
  {
    var held := SetAssignment(db, Some(p), id).0;
    assert held.models == db.models && held.overrides == db.overrides && held.assignments[p] == id;
    var after := DropModel(held, id).0;
    assert after.overrides == db.overrides && after.assignments == held.assignments && id !in after.models;
    DanglingFails(after, boxId, p);
  }

  // --- writes that bump nothing ---

  ghost predicate Resolves(db: Db, boxId: Id, p: Purpose, id: Id) {
    ResolvedId(RowsOf(db.overrides, boxId), db.assignments, p) == Some(id)
  }

  /** Every entry of a manifest names the pin its purpose resolves to, with that pin's stored size. */
  lemma EntryOfManifest(db: Db, boxId: Id, p: Purpose)
    requires boxId in db.boxes && BuildManifest(db, boxId).Success?
    ensures var m := BuildManifest(db, boxId).value.models;
            && (p in m <==> ResolvedId(RowsOf(db.overrides, boxId), db.assignments, p).Some?)
            && (p in m ==> Resolves(db, boxId, p, m[p].id) && m[p].id in db.models
                           && m[p].pin.size == db.models[m[p].id].pin.size)
  {
    var ov, asg, pins := RowsOf(db.overrides, boxId), db.assignments, PinView(db.models);
    ResolvedPinsMeaning(ov, asg, pins);
    assert Answers(ov, asg, pins, ResolvedPins(ov, asg, pins).value, p);
  }

  lemma UnresolvedPinUnread(f: Footprint, pins: map<Id, Pin>, id: Id)
    requires id in f.pins && id in pins && pins == f.pins[id := pins[id]]
    requires ManifestOf(f).Success?
    requires forall p :: ResolvedId(f.overrides, f.assignments, p) != Some(id)
    ensures ManifestOf(f.(pins := pins)) == ManifestOf(f)
  {
    ResolvedPinsMeaning(f.overrides, f.assignments, f.pins);
    ResolvedPinsMeaning(f.overrides, f.assignments, pins);
    forall p ensures PinKnown(f.overrides, f.assignments, pins, p) {
      assert PinKnown(f.overrides, f.assignments, f.pins, p);
    }
    var r := ResolvedPins(f.overrides, f.assignments, f.pins).value;
    var q := ResolvedPins(f.overrides, f.assignments, pins).value;
    forall p
      ensures p in r <==> p in q
      ensures p in r ==> r[p] == q[p]
    {
      assert Answers(f.overrides, f.assignments, f.pins, r, p) && Answers(f.overrides, f.assignments, pins, q, p);
    }
    assert r == q;
  }

  lemma MetaFootprint(db: Db, id: Id, learned: Learned, size: int, boxId: Id)
    requires boxId in db.boxes && id in db.models
    ensures var e := SetModelMeta(db, id, learned, size).0;
            && e.boxes == db.boxes && e.overrides == db.overrides && e.assignments == db.assignments
            && e.models.Keys == db.models.Keys && e.models[id].pin == db.models[id].pin.(size := size)
            && PinView(e.models) == PinView(db.models)[id := e.models[id].pin]
            && FootprintOf(e, boxId) == FootprintOf(db, boxId).(pins := PinView(e.models))
  {
  }

  /** Learned metadata goes stale under an unchanged version exactly when a resolved pin's size moves. */
  lemma MetaKeepsManifestExactly(db: Db, id: Id, learned: Learned, size: int, boxId: Id)
    requires boxId in db.boxes && BuildManifest(db, boxId).Success? && id in db.models
    ensures var e := SetModelMeta(db, id, learned, size).0;
            && e.boxes == db.boxes
            && (BuildManifest(e, boxId) == BuildManifest(db, boxId) <==>
                  size == db.models[id].pin.size || forall p :: !Resolves(db, boxId, p, id))
  {
    var e := SetModelMeta(db, id, learned, size).0;
    var f := FootprintOf(db, boxId);
    MetaFootprint(db, id, learned, size, boxId);
    if size == db.models[id].pin.size {
      assert FootprintOf(e, boxId) == f;
    } else if p :| Resolves(db, boxId, p, id) {
      EntryOfManifest(db, boxId, p);
      if BuildManifest(e, boxId).Success? {
        EntryOfManifest(e, boxId, p);
      }
    } else {
      forall p ensures ResolvedId(f.overrides, f.assignments, p) != Some(id) {
        assert !Resolves(db, boxId, p, id);
      }
      UnresolvedPinUnread(f, PinView(e.models), id);
    }
  }

  /** The case: a size learned for a pin the box resolves to changes its manifest under an unchanged version. */
  lemma LearnedSizeGoesStale(db: Db, id: Id, learned: Learned, size: int, boxId: Id, p: Purpose, held: Manifest)
    requires BuildManifest(db, boxId) == Success(held) && Resolves(db, boxId, p, id) && id in db.models
    requires size != db.models[id].pin.size
    ensures var e := SetModelMeta(db, id, learned, size).0;
            NotModified(e, boxId, held.box.version) && BuildManifest(e, boxId) != Success(held)
  {
    MetaKeepsManifestExactly(db, id, learned, size, boxId);
  }

  lemma OrgFootprint(db: Db, id: Id, org: Org, boxId: Id)
    requires boxId in db.boxes && id !in db.orgs
    ensures var f, g := FootprintOf(db, boxId), FootprintOf(CreateOrg(db, id, org).0, boxId);
            g == if id in BoundOrgs(db, boxId) then f.(orgs := f.orgs[id := org]) else f
  {
    var f, g := FootprintOf(db, boxId), FootprintOf(CreateOrg(db, id, org).0, boxId);
    assert g.orgs == if id in BoundOrgs(db, boxId) then f.orgs[id := org] else f.orgs;
  }

  /** A new organization reaches a manifest without a bump exactly when the box was bound to its id beforehand. */
  lemma CreateOrgKeepsManifestExactly(db: Db, id: Id, org: Org, boxId: Id)
    requires boxId in db.boxes && BuildManifest(db, boxId).Success?
    ensures var e := CreateOrg(db, id, org).0;
            && e.boxes == db.boxes
            && (BuildManifest(e, boxId) == BuildManifest(db, boxId) <==> id in db.orgs || id !in BoundOrgs(db, boxId))
  {
    if id !in db.orgs {
      OrgFootprint(db, id, org, boxId);
      var e := CreateOrg(db, id, org).0;
      if id in BoundOrgs(db, boxId) {
        assert id in BuildManifest(e, boxId).value.orgs && id !in BuildManifest(db, boxId).value.orgs;
      }
    }
  }

  // --- which versions a write moves ---

  /** The boxes a completed write re-syncs. */
  ghost function Resynced(db: Db, w: Write): set<Id> {
    match w
    case OnBox(bw) => if bw.CreatingBox? || bw.DeletingBox? then {} else {bw.id}
    case OnOrg(ow) =>
      if ow.CreatingOrg? then {} else if ow.UpsertingStaff? then db.boxes.Keys else Carrying(db, ow.id)
    case OnPin(pw) => if pw.SettingOverride? || pw.ClearingOverride? then {pw.id} else db.boxes.Keys
    case OnLimit(lw) => if lw.SettingBoxLimit? || lw.ClearingBoxLimit? then {lw.id} else db.boxes.Keys
    case OnModel(mw) => if mw.SettingMeta? then {} else db.boxes.Keys
    case OnSeed(SeedingModels(_)) => db.boxes.Keys
    case OnSeed(SeedingAssignments(picks)) => if NonePending(db, picks) then {} else db.boxes.Keys
    case OnSeed(SeedingLimits(ceilings)) => if AllLimited(db, ceilings) then {} else db.boxes.Keys
    case OnHalf(h) => if h.PuttingOverride? then {h.id} else db.boxes.Keys
  }

  lemma BoxStepMoves(d: Db, w: BoxWrite)
    requires ValidDb(d) && Admissible(d, OnBox(w))
    ensures MovesBy(d, ApplyBox(d, w), Resynced(d, OnBox(w)))
  {
    if w.CreatingBox? {
      CreateBoxMoves(d, w.id, w.slug, w.name, w.hostId, w.edition, w.seed);
    }
  }

  lemma CreateBoxMoves(d: Db, id: Id, slug: string, name: string, hostId: string, edition: Option<string>, seed: BoxNarrator)
    requires ValidDb(d) && id !in d.issued
    ensures MovesBy(d, CreateBox(d, id, slug, name, hostId, edition, seed), {})
  {
  }

  lemma OrgStepMoves(d: Db, w: OrgWrite)
    ensures MovesBy(d, ApplyOrg(d, w), Resynced(d, OnOrg(w)))
  {
  }

  lemma PinStepMoves(d: Db, w: PinWrite)
    ensures MovesBy(d, ApplyPin(d, w), Resynced(d, OnPin(w)))
  {
  }

  lemma LimitStepMoves(d: Db, w: LimitWrite)
    ensures MovesBy(d, ApplyLimit(d, w), Resynced(d, OnLimit(w)))
  {
  }

  lemma ModelStepMoves(d: Db, w: ModelWrite)
    ensures MovesBy(d, ApplyModel(d, w), Resynced(d, OnModel(w)))
  {
  }

  lemma SeedStepMoves(d: Db, w: SeedWrite)
    ensures MovesBy(d, ApplySeed(d, w), Resynced(d, OnSeed(w)))
  {
    match w
    case SeedingModels(seeds) =>
    case SeedingAssignments(picks) =>
    case SeedingLimits(ceilings) =>
  }

  lemma HalfStepMoves(d: Db, h: HalfWrite)
    ensures MovesBy(d, ApplyHalf(d, h), Resynced(d, OnHalf(h)))
  {
  }

  /** A write moves the version of exactly the boxes in its scope, by one; a refused or empty one moves none. */
  lemma StepMovesExactly(d: Db, w: Write)
    requires ValidDb(d) && Admissible(d, w)
    ensures MovesBy(d, Apply(d, w), Resynced(d, w))
  {
    match w
    case OnBox(bw) => BoxStepMoves(d, bw);
    case OnOrg(ow) => OrgStepMoves(d, ow);
    case OnPin(pw) => PinStepMoves(d, pw);
    case OnLimit(lw) => LimitStepMoves(d, lw);
    case OnModel(mw) => ModelStepMoves(d, mw);
    case OnSeed(sw) => SeedStepMoves(d, sw);
    case OnHalf(h) => HalfStepMoves(d, h);
  }

  /** A box a narrow bump leaves out keeps exactly the manifest it had. */
  lemma UntouchedBoxKeepsManifest(d: Db, w: Write, b: Id)
    requires ValidDb(d) && Admissible(d, w) && b in d.boxes && b in Apply(d, w).0.boxes
    requires b !in Resynced(d, w)
    ensures BuildManifest(Apply(d, w).0, b) == BuildManifest(d, b)
  {
    StepEvolves(d, w);
    StepMovesExactly(d, w);
    assert KeepsPace(d, Apply(d, w).0, b);
  }
}
