/**
  What every assignment and override points at: a pin that exists, serves the purpose and has a verified
  digest. The pointing writes check it; the writes that change a pin in use do not.
 */
module AimLaws {
  import opened Wrappers
  import opened BoxTables
  import opened BoxManifest
  import opened BoxWrites
  import opened ManifestLaws
  import opened ModelFiles
  import opened EffectLaws
  import SeedLaws

  /** A row of the registry that may serve a purpose. */
  predicate Serves(models: map<Id, Model>, p: Purpose, id: Id) {
    id in models && p in models[id].purposes && models[id].pin.digest != ""
  }

  predicate AimedAt(assignments: map<Purpose, Id>, overrides: map<Id, map<Purpose, Id>>, p: Purpose, id: Id) {
    || (p in assignments && assignments[p] == id)
    || (exists b | b in overrides :: p in overrides[b] && overrides[b][p] == id)
  }

  /** Every row that points at a pin points at one that serves. */
  ghost predicate Aims(models: map<Id, Model>, assignments: map<Purpose, Id>, overrides: map<Id, map<Purpose, Id>>) {
    && (forall p | p in assignments :: Serves(models, p, assignments[p]))
    && (forall b, p | b in overrides && p in overrides[b] :: Serves(models, p, overrides[b][p]))
  }

  ghost predicate AimsHold(db: Db) {
    Aims(db.models, db.assignments, db.overrides)
  }

  /** The default purpose of a pin is one of its purposes. */
  ghost predicate Listed(models: map<Id, Model>) {
    forall id | id in models :: models[id].purpose in models[id].purposes
  }

  lemma AimsMeaning(models: map<Id, Model>, assignments: map<Purpose, Id>, overrides: map<Id, map<Purpose, Id>>)
    ensures Aims(models, assignments, overrides) <==>
            forall p, id | AimedAt(assignments, overrides, p, id) :: Serves(models, p, id)
  {
    if forall p, id | AimedAt(assignments, overrides, p, id) :: Serves(models, p, id) {
      forall p | p in assignments ensures Serves(models, p, assignments[p]) {
        assert AimedAt(assignments, overrides, p, assignments[p]);
      }
      forall b, p | b in overrides && p in overrides[b] ensures Serves(models, p, overrides[b][p]) {
        assert AimedAt(assignments, overrides, p, overrides[b][p]);
      }
    }
  }

  lemma ResolvedServes(db: Db, boxId: Id, p: Purpose)
    requires AimsHold(db)
    ensures var id := ResolvedId(RowsOf(db.overrides, boxId), db.assignments, p);
            id.Some? ==> Serves(db.models, p, id.value)
  {
  }

  lemma AimsAreRefs(db: Db)
    requires AimsHold(db)
    ensures RefsExist(db)
  {
  }

  /** So no manifest ever ships an unverified pin, or one for another purpose. */
  lemma AimsReachManifests(db: Db, boxId: Id, p: Purpose)
    requires AimsHold(db) && boxId in db.boxes
    ensures BuildManifest(db, boxId).Success?
    ensures var m := BuildManifest(db, boxId).value.models;
            p in m ==> Serves(db.models, p, m[p].id) && m[p].pin.digest == db.models[m[p].id].pin.digest
  {
    AimsAreRefs(db);
    RefsExistBuilds(db, boxId);
    ResolvedServes(db, boxId, p);
    ManifestModels(FootprintOf(db, boxId));
    EntryListed(FootprintOf(db, boxId), p);
  }

  // --- writes that point ---

  lemma PutAimExactly(d: Db, e: Db, b: Id, p: Purpose, id: Id)
    requires AimsHold(d) && e.models == d.models && e.assignments == d.assignments
    requires e.overrides == PutRow(d.overrides, b, p, id)
    ensures AimsHold(e) <==> Serves(d.models, p, id)
  {
    var after := e.overrides;
    assert b in after && p in after[b] && after[b][p] == id;
  }

  lemma AssignAimExactly(d: Db, e: Db, p: Purpose, id: Id)
    requires AimsHold(d) && e.models == d.models && e.overrides == d.overrides
    requires e.assignments == d.assignments[p := id]
    ensures AimsHold(e) <==> Serves(d.models, p, id)
  {
    assert p in e.assignments && e.assignments[p] == id;
  }

  lemma ClearAssignmentAims(d: Db, p: Purpose)
    requires AimsHold(d)
    ensures AimsHold(ClearAssignment(d, p).0)
  {
  }

  lemma ClearOverrideAims(d: Db, b: Id, p: Purpose)
    requires AimsHold(d)
    ensures AimsHold(ClearBoxModelOverride(d, b, p).0)
  {
    ClearRows(d.models, d.assignments, d.overrides, b, p);
  }

  lemma ClearRows(models: map<Id, Model>, assignments: map<Purpose, Id>, overrides: map<Id, map<Purpose, Id>>, b: Id, p: Purpose)
    requires Aims(models, assignments, overrides)
    ensures Aims(models, assignments, DropRow(overrides, b, p))
  {
  }

  /** SetAssignment's check is exactly what keeps the aims; without it the write half keeps them under the same condition. */
  lemma PutAssignmentAims(d: Db, p: Purpose, id: Id)
    requires AimsHold(d)
    ensures AimsHold(PutAssignment(d, p, id).0) <==> Serves(d.models, p, id)
    ensures PinRefusal(d, p, id).None? <==> Serves(d.models, p, id)
  {
    AssignAimExactly(d, PutAssignment(d, p, id).0, p, id);
  }

  lemma PutOverrideAims(d: Db, b: Id, p: Purpose, id: Id)
    requires AimsHold(d)
    ensures AimsHold(PutOverride(d, b, p, id).0) <==> Serves(d.models, p, id)
  {
    PutAimExactly(d, PutOverride(d, b, p, id).0, b, p, id);
  }

  // --- writes that change a pin ---

  /** Whether a pin's row may be replaced: it still serves whatever points at it. */
  ghost predicate StillServes(db: Db, id: Id, purposes: seq<Purpose>, digest: string) {
    forall p | AimedAt(db.assignments, db.overrides, p, id) :: p in purposes && digest != ""
  }

  lemma RowAimExactly(d: Db, e: Db, id: Id, row: Model)
    requires AimsHold(d) && id in d.models && e.models == d.models[id := row]
    requires e.assignments == d.assignments && e.overrides == d.overrides
    ensures AimsHold(e) <==> StillServes(d, id, row.purposes, row.pin.digest)
  {
    AimsMeaning(d.models, d.assignments, d.overrides);
    AimsMeaning(e.models, e.assignments, e.overrides);
    if StillServes(d, id, row.purposes, row.pin.digest) {
      forall p, x | AimedAt(e.assignments, e.overrides, p, x) ensures Serves(e.models, p, x) {
        assert Serves(d.models, p, x);
      }
    } else {
      var p :| AimedAt(d.assignments, d.overrides, p, id) && !(p in row.purposes && row.pin.digest != "");
      assert AimedAt(e.assignments, e.overrides, p, id) && !Serves(e.models, p, id);
    }
  }

  /**
    Changing a pin keeps the aims exactly when no row points at a purpose it drops, or at it at all once
    its digest is gone.
   */
  lemma PutRowAims(d: Db, id: Id, row: PinRow)
    requires AimsHold(d)
    ensures AimsHold(PutRowOf(d, id, row).0) <==> (id in d.models ==> StillServes(d, id, row.purposes, row.digest))
  {
    if id in d.models {
      var e := PutRowOf(d, id, row).0;
      assert e.models == d.models[id := WithRow(d.models[id], row)];
      RowAimExactly(d, e, id, WithRow(d.models[id], row));
    }
  }

  lemma ShipsUnverified(db: Db, p: Purpose, id: Id, boxId: Id)
    requires RefsExist(db) && boxId in db.boxes && p !in RowsOf(db.overrides, boxId)
    requires p in db.assignments && db.assignments[p] == id && id in db.models && db.models[id].pin.digest == "" && id != ""
    ensures BuildManifest(db, boxId).Success?
    ensures p in BuildManifest(db, boxId).value.models && BuildManifest(db, boxId).value.models[p].pin.digest == ""
  {
    RefsExistBuilds(db, boxId);
    ManifestModels(FootprintOf(db, boxId));
    EntryListed(FootprintOf(db, boxId), p);
    assert PinView(db.models)[id].digest == "";
  }

  /** The failure: the pin a purpose is assigned to, saved again with its digest cleared, ships unverified. */
  lemma ClearedDigestShips(db: Db, p: Purpose, id: Id, form: PinForm, boxId: Id)
    requires AimsHold(db) && p in db.assignments && db.assignments[p] == id != ""
    requires boxId in db.boxes && p !in RowsOf(db.overrides, boxId)
    requires UpdateModel(db, id, form).1.Done? && form.digest == ""
    ensures var e := UpdateModel(db, id, form).0;
            && !AimsHold(e) && BuildManifest(e, boxId).Success?
            && p in BuildManifest(e, boxId).value.models && BuildManifest(e, boxId).value.models[p].pin.digest == ""
  {
    var e := UpdateModel(db, id, form).0;
    assert AimedAt(db.assignments, db.overrides, p, id);
    PutRowAims(db, id, Parsed(form).value);
    AimsAreRefs(db);
    RefsKept(db, e);
    assert e.models[id] == WithRow(db.models[id], Parsed(form).value) && boxId in e.boxes;
    ShipsUnverified(e, p, id, boxId);
  }

  lemma DropAims(d: Db, id: Id)
    requires AimsHold(d)
    ensures AimsHold(DropModel(d, id).0) <==> !(id in d.models && ModelInUse(d, id))
  {
    AimsAreRefs(d);
    DropModelKeepsRefsExactly(d, id);
    var e := DropModel(d, id).0;
    if AimsHold(e) {
      AimsAreRefs(e);
    } else if !ModelInUse(d, id) && id in d.models {
      assert e.models == d.models - {id} && e.assignments == d.assignments && e.overrides == d.overrides;
      UnusedDropped(d.models, d.assignments, d.overrides, id);
    }
  }

  lemma UnusedDropped(models: map<Id, Model>, assignments: map<Purpose, Id>, overrides: map<Id, map<Purpose, Id>>, id: Id)
    requires Aims(models, assignments, overrides) && !InUse(assignments, overrides, id)
    ensures Aims(models - {id}, assignments, overrides)
  {
  }

  lemma SameRowAims(d: Db, e: Db, id: Id, row: Model)
    requires AimsHold(d) && e.models == d.models[id := row] && e.assignments == d.assignments && e.overrides == d.overrides
    requires id in d.models ==> row.purposes == d.models[id].purposes && row.pin.digest == d.models[id].pin.digest
    ensures AimsHold(e)
  {
  }

  lemma CreateAims(d: Db, id: Id, form: PinForm)
    requires AimsHold(d)
    ensures AimsHold(CreateModel(d, id, form).0)
  {
    var r := CreateModel(d, id, form);
    if r.1.Done? {
      SameRowAims(d, r.0, id, r.0.models[id]);
    }
  }

  lemma FilesAims(d: Db, id: Id, files: seq<ModelFile>)
    requires AimsHold(d)
    ensures AimsHold(PutFiles(d, id, files).0)
  {
    if id in d.models {
      SameRowAims(d, PutFiles(d, id, files).0, id, d.models[id].(pin := d.models[id].pin.(files := files)));
    }
  }

  lemma MetaAims(d: Db, id: Id, learned: Learned, size: int)
    requires AimsHold(d)
    ensures AimsHold(SetModelMeta(d, id, learned, size).0)
  {
    var r := SetModelMeta(d, id, learned, size);
    if r.1.Done? {
      SameRowAims(d, r.0, id, r.0.models[id]);
    }
  }

  // --- the seeds ---

  /** Whether a pass leaves every pin that is pointed at serving: no drifted one goes back to fewer purposes. */
  ghost predicate SeedsServe(db: Db, seeds: seq<SeedModel>) {
    forall s, p | s in seeds && s.id in db.models && Drifted(db.models[s.id], s)
                  && AimedAt(db.assignments, db.overrides, p, s.id) :: p in SeedPurposes(s)
  }

  lemma SeededServes(db: Db, seeds: seq<SeedModel>, p: Purpose, id: Id)
    requires SeedLaws.UniqueIds(seeds) && Serves(db.models, p, id)
    ensures Serves(SeedPass(db.models, seeds), p, id) <==>
            forall s | s in seeds && s.id == id && Drifted(db.models[id], s) :: p in SeedPurposes(s)
  {
    if s :| s in seeds && s.id == id {
      SeedLaws.SeedPassAt(db.models, seeds, s);
      assert forall r | r in seeds && r.id == id :: r == s;
    } else {
      SeedLaws.SeedPassOthers(db.models, seeds, id);
    }
  }

  lemma SeedPassAims(db: Db, seeds: seq<SeedModel>)
    requires SeedLaws.UniqueIds(seeds) && AimsHold(db)
    ensures Aims(SeedPass(db.models, seeds), db.assignments, db.overrides) <==> SeedsServe(db, seeds)
  {
    var after := SeedPass(db.models, seeds);
    AimsMeaning(db.models, db.assignments, db.overrides);
    AimsMeaning(after, db.assignments, db.overrides);
    forall p, id | AimedAt(db.assignments, db.overrides, p, id)
      ensures Serves(after, p, id) <==> forall s | s in seeds && s.id == id && Drifted(db.models[id], s) :: p in SeedPurposes(s)
    {
      SeededServes(db, seeds, p, id);
    }
  }

  lemma SeedModelsAims(d: Db, seeds: seq<SeedModel>)
    requires SeedLaws.UniqueIds(seeds) && AimsHold(d)
    ensures AimsHold(SeedModels(d, seeds).0) <==> SeedsServe(d, seeds)
  {
    SeedPassAims(d, seeds);
    if !SeedChanges(d.models, seeds) {
      UnchangedPass(d.models, seeds);
    }
  }

  lemma {:induction false} UnchangedPass(models: map<Id, Model>, seeds: seq<SeedModel>)
    requires !SeedChanges(models, seeds)
    ensures SeedPass(models, seeds) == models
    decreases |seeds|
  {
    if seeds != [] {
      UnchangedPass(models, seeds[1..]);
    }
  }

  lemma FilledAims(d: Db, picks: seq<(Purpose, Id)>)
    requires AimsHold(d) && Listed(d.models)
    ensures Aims(d.models, FillAssignments(d, picks, d.assignments), d.overrides)
  {
    var r := FillAssignments(d, picks, d.assignments);
    forall p | p in r ensures Serves(d.models, p, r[p]) {
      SeedLaws.FilledMeaning(d, picks, d.assignments, p);
    }
  }

  // --- runs ---

  /** Seed lists with distinct ids; a row to be written lists its own default purpose, as every parsed form does. */
  predicate Sane(w: Write) {
    match w
    case OnSeed(SeedingModels(seeds)) => SeedLaws.UniqueIds(seeds)
    case OnHalf(PuttingRow(_, row)) => row.purpose in row.purposes
    case _ => true
  }

  /** Whether a write, as it lands, leaves everything that is pointed at serving. */
  ghost predicate AimsWell(db: Db, w: Write) {
    match w
    case OnModel(UpdatingModel(id, form)) =>
      UpdateModel(db, id, form).1.Done? ==> StillServes(db, id, form.purposes.value, form.digest)
    case OnSeed(SeedingModels(seeds)) => SeedsServe(db, seeds)
    case OnHalf(PuttingRow(id, row)) => id in db.models ==> StillServes(db, id, row.purposes, row.digest)
    case OnHalf(DroppingModel(id)) => !(id in db.models && ModelInUse(db, id))
    case OnHalf(PuttingAssignment(p, id)) => Serves(db.models, p, id)
    case OnHalf(PuttingOverride(_, p, id)) => Serves(db.models, p, id)
    case _ => true
  }

  lemma SameAims(d: Db, e: Db)
    requires AimsHold(d) && e.models == d.models && e.assignments == d.assignments
    requires e.overrides == d.overrides || exists b :: e.overrides == d.overrides - {b}
    ensures AimsHold(e)
  {
  }

  lemma SetAssignmentAims(d: Db, raw: Option<Purpose>, id: Id)
    requires AimsHold(d)
    ensures AimsHold(SetAssignment(d, raw, id).0)
  {
    if raw.Some? {
      PutAssignmentAims(d, raw.value, id);
    }
  }

  lemma SetOverrideAims(d: Db, b: Id, raw: Option<Purpose>, id: Id)
    requires AimsHold(d)
    ensures AimsHold(SetBoxModelOverride(d, b, raw, id).0)
  {
    if raw.Some? {
      PutAssignmentAims(d, raw.value, id);
      PutOverrideAims(d, b, raw.value, id);
    }
  }

  lemma PinStepAims(d: Db, w: PinWrite)
    requires AimsHold(d)
    ensures AimsHold(ApplyPin(d, w).0)
  {
    match w
    case SettingAssignment(raw, id) => SetAssignmentAims(d, raw, id);
    case ClearingAssignment(p) => ClearAssignmentAims(d, p);
    case SettingOverride(b, raw, id) => SetOverrideAims(d, b, raw, id);
    case ClearingOverride(b, p) => ClearOverrideAims(d, b, p);
  }

  lemma UpdateAims(d: Db, id: Id, form: PinForm)
    requires AimsHold(d)
    ensures AimsHold(UpdateModel(d, id, form).0) <==> AimsWell(d, OnModel(UpdatingModel(id, form)))
  {
    if UpdateModel(d, id, form).1.Done? {
      PutRowAims(d, id, Parsed(form).value);
    }
  }

  lemma ModelStepAims(d: Db, w: ModelWrite)
    requires AimsHold(d)
    ensures AimsHold(ApplyModel(d, w).0) <==> AimsWell(d, OnModel(w))
  {
    match w
    case CreatingModel(id, form) => CreateAims(d, id, form);
    case UpdatingModel(id, form) => UpdateAims(d, id, form);
    case SettingFiles(id, files) => FilesAims(d, id, files);
    case SettingMeta(id, learned, size) => MetaAims(d, id, learned, size);
    case DeletingModel(id) => DropAims(d, id);
  }

  lemma SeedStepAims(d: Db, w: SeedWrite)
    requires AimsHold(d) && Listed(d.models) && Sane(OnSeed(w))
    ensures AimsHold(ApplySeed(d, w).0) <==> AimsWell(d, OnSeed(w))
  {
    match w
    case SeedingModels(seeds) => SeedModelsAims(d, seeds);
    case SeedingAssignments(picks) => FilledAims(d, picks);
    case SeedingLimits(ceilings) => SameAims(d, ApplySeed(d, w).0);
  }

  lemma HalfStepAims(d: Db, h: HalfWrite)
    requires AimsHold(d)
    ensures AimsHold(ApplyHalf(d, h).0) <==> AimsWell(d, OnHalf(h))
  {
    match h
    case PuttingRow(id, row) => PutRowAims(d, id, row);
    case PuttingFiles(id, files) => FilesAims(d, id, files);
    case DroppingModel(id) => DropAims(d, id);
    case PuttingAssignment(p, id) => PutAssignmentAims(d, p, id);
    case PuttingOverride(b, p, id) => PutOverrideAims(d, b, p, id);
  }

  lemma StepAimsExactly(d: Db, w: Write)
    requires AimsHold(d) && Listed(d.models) && Sane(w)
    ensures AimsHold(Apply(d, w).0) <==> AimsWell(d, w)
  {
    match w
    case OnBox(bw) => SameAims(d, ApplyBox(d, bw).0);
    case OnOrg(ow) => SameAims(d, ApplyOrg(d, ow).0);
    case OnPin(pw) => PinStepAims(d, pw);
    case OnLimit(lw) => SameAims(d, ApplyLimit(d, lw).0);
    case OnModel(mw) => ModelStepAims(d, mw);
    case OnSeed(sw) => SeedStepAims(d, sw);
    case OnHalf(h) => HalfStepAims(d, h);
  }

  lemma SeedOneListed(models: map<Id, Model>, s: SeedModel)
    requires Listed(models)
    ensures Listed(SeedOne(models, s))
  {
    SeedLaws.CanonicalFromSorted(Expanded({s.purpose}), 0);
    assert s.purpose in SeedPurposes(s);
  }

  lemma {:induction false} SeedPassListed(models: map<Id, Model>, seeds: seq<SeedModel>)
    requires Listed(models)
    ensures Listed(SeedPass(models, seeds))
    decreases |seeds|
  {
    if seeds != [] {
      SeedOneListed(models, seeds[0]);
      SeedPassListed(SeedOne(models, seeds[0]), seeds[1..]);
    }
  }

  lemma RowListed(d: Db, e: Db, id: Id, row: Model)
    requires Listed(d.models) && e.models == d.models[id := row] && row.purpose in row.purposes
    ensures Listed(e.models)
  {
  }

  lemma PutRowListed(d: Db, id: Id, row: PinRow)
    requires Listed(d.models) && row.purpose in row.purposes
    ensures Listed(PutRowOf(d, id, row).0.models)
  {
    if id in d.models {
      RowListed(d, PutRowOf(d, id, row).0, id, WithRow(d.models[id], row));
    }
  }

  lemma FilesListed(d: Db, id: Id, files: seq<ModelFile>)
    requires Listed(d.models)
    ensures Listed(PutFiles(d, id, files).0.models)
  {
    if id in d.models {
      RowListed(d, PutFiles(d, id, files).0, id, d.models[id].(pin := d.models[id].pin.(files := files)));
    }
  }

  lemma CreateListed(d: Db, id: Id, form: PinForm)
    requires Listed(d.models)
    ensures Listed(CreateModel(d, id, form).0.models)
  {
    var r := CreateModel(d, id, form);
    if r.1.Done? {
      RowListed(d, r.0, id, r.0.models[id]);
    }
  }

  lemma MetaListed(d: Db, id: Id, learned: Learned, size: int)
    requires Listed(d.models)
    ensures Listed(SetModelMeta(d, id, learned, size).0.models)
  {
    var r := SetModelMeta(d, id, learned, size);
    if r.1.Done? {
      RowListed(d, r.0, id, r.0.models[id]);
    }
  }

  lemma DropListed(d: Db, id: Id)
    requires Listed(d.models)
    ensures Listed(DropModel(d, id).0.models)
  {
  }

  lemma UpdateListed(d: Db, id: Id, form: PinForm)
    requires Listed(d.models)
    ensures Listed(UpdateModel(d, id, form).0.models)
  {
    if Parsed(form).Success? {
      PutRowListed(d, id, Parsed(form).value);
    }
  }

  lemma ModelStepListed(d: Db, w: ModelWrite)
    requires Listed(d.models)
    ensures Listed(ApplyModel(d, w).0.models)
  {
    match w
    case CreatingModel(id, form) => CreateListed(d, id, form);
    case UpdatingModel(id, form) => UpdateListed(d, id, form);
    case SettingFiles(id, files) => FilesListed(d, id, files);
    case SettingMeta(id, learned, size) => MetaListed(d, id, learned, size);
    case DeletingModel(id) => DropListed(d, id);
  }

  lemma HalfStepListed(d: Db, h: HalfWrite)
    requires Listed(d.models) && Sane(OnHalf(h))
    ensures Listed(ApplyHalf(d, h).0.models)
  {
    match h
    case PuttingRow(id, row) => PutRowListed(d, id, row);
    case PuttingFiles(id, files) => FilesListed(d, id, files);
    case DroppingModel(id) => DropListed(d, id);
    case PuttingAssignment(p, id) =>
    case PuttingOverride(b, p, id) =>
  }

  lemma SeedStepListed(d: Db, w: SeedWrite)
    requires Listed(d.models)
    ensures Listed(ApplySeed(d, w).0.models)
  {
    if w.SeedingModels? {
      SeedPassListed(d.models, w.seeds);
    }
  }

  lemma StepListed(d: Db, w: Write)
    requires Listed(d.models) && Sane(w)
    ensures Listed(Apply(d, w).0.models)
  {
    match w
    case OnModel(mw) => ModelStepListed(d, mw);
    case OnSeed(sw) => SeedStepListed(d, sw);
    case OnHalf(h) => HalfStepListed(d, h);
    case _ =>
  }

  ghost predicate AimsThroughout(d: Db, ws: seq<Write>)
    decreases |ws|
  {
    AimsHold(d) && (ws != [] ==> AimsThroughout(Apply(d, ws[0]).0, ws[1..]))
  }

  ghost predicate AllAimWell(d: Db, ws: seq<Write>)
    decreases |ws|
  {
    ws != [] ==> AimsWell(d, ws[0]) && AllAimWell(Apply(d, ws[0]).0, ws[1..])
  }

  /**
    Over any run, interleaved in any way, everything pointed at serves in every state exactly when no write
    takes a purpose or the digest off a pin in use, and each write half lands on a pin that still serves.
   */
  lemma {:induction false} RunAimsExactly(d: Db, ws: seq<Write>)
    requires AimsHold(d) && Listed(d.models) && forall w | w in ws :: Sane(w)
    ensures AimsThroughout(d, ws) <==> AllAimWell(d, ws)
    decreases |ws|
  {
    if ws != [] {
      assert ws[0] in ws && forall w | w in ws[1..] :: w in ws;
      StepAimsExactly(d, ws[0]);
      StepListed(d, ws[0]);
      if AimsWell(d, ws[0]) {
        RunAimsExactly(Apply(d, ws[0]).0, ws[1..]);
      }
    }
  }
}
