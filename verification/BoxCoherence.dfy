/**
  Why a 304 can be trusted: a box's config_version moves whenever anything its manifest reads
  moves, so equal versions mean equal manifests, in every run of store writes.
 */
module BoxCoherence {
  import opened Wrappers
  import opened BoxTables
  import opened BoxManifest
  import opened BoxWrites
  import opened ModelFiles

  /**
    One database may follow another: no box id is revived, no version goes back, and a box whose
    version stood still kept every row its manifest depends on.
   */
  ghost predicate Evolves(d: Db, e: Db) {
    && d.issued <= e.issued
    && forall b | b in d.issued && b in e.boxes :: KeepsPace(d, e, b)
  }

  ghost predicate KeepsPace(d: Db, e: Db, b: Id)
    requires b in e.boxes
  {
    && b in d.boxes
    && d.boxes[b].version <= e.boxes[b].version
    && (d.boxes[b].version == e.boxes[b].version ==> FootprintOf(d, b) == FootprintOf(e, b))
  }

  lemma EvolvesReflexive(d: Db)
    requires ValidDb(d)
    ensures Evolves(d, d)
  {
  }

  lemma EvolvesTransitive(d: Db, e: Db, f: Db)
    requires Evolves(d, e) && Evolves(e, f)
    ensures Evolves(d, f)
  {
    forall b | b in d.issued && b in f.boxes ensures KeepsPace(d, f, b) {
      assert KeepsPace(e, f, b);
      assert KeepsPace(d, e, b);
    }
  }

  /** A write that leaves every unbumped box's footprint alone, and then bumps, evolves. */
  lemma BumpedEvolves(d: Db, mid: Db, ids: set<Id>)
    requires ValidDb(d) && mid.issued == d.issued && mid.boxes.Keys == d.boxes.Keys
    requires forall b | b in d.boxes :: mid.boxes[b].version == d.boxes[b].version
    requires forall b | b in d.boxes && b !in ids :: FootprintOf(d, b) == FootprintOf(mid, b)
    ensures ValidDb(Bump(mid, ids)) && Evolves(d, Bump(mid, ids))
  {
    var e := Bump(mid, ids);
    forall b | b in d.issued && b in e.boxes ensures KeepsPace(d, e, b) {
      if b !in ids {
        assert FootprintOf(mid, b) == FootprintOf(e, b);
      }
    }
  }

  /** One box's rows in every table keyed by box. */
  ghost predicate SameRows(d: Db, e: Db, b: Id) {
    && (b in e.boxes <==> b in d.boxes) && (b in e.boxes ==> e.boxes[b] == d.boxes[b])
    && BoundOrgs(e, b) == BoundOrgs(d, b)
    && NarratorOf(e, b) == NarratorOf(d, b)
    && RowsOf(e.overrides, b) == RowsOf(d.overrides, b)
    && RowsOf(e.boxLimits, b) == RowsOf(d.boxLimits, b)
  }

  ghost predicate SameSharedTables(d: Db, e: Db) {
    && e.orgs == d.orgs && e.staff == d.staff && e.orgStaff == d.orgStaff && e.models == d.models
    && e.assignments == d.assignments && e.limits == d.limits
  }

  ghost predicate OtherBoxesKept(d: Db, e: Db, id: Id) {
    && SameSharedTables(d, e)
    && forall b | b != id :: SameRows(d, e, b)
  }

  lemma OtherFootprintKept(d: Db, e: Db, id: Id, b: Id)
    requires OtherBoxesKept(d, e, id) && b != id && b in e.boxes
    ensures b in d.boxes && FootprintOf(d, b) == FootprintOf(e, b)
  {
    assert SameRows(d, e, b);
  }

  lemma OneBoxGoneOrNew(d: Db, e: Db, id: Id)
    requires ValidDb(d) && OtherBoxesKept(d, e, id) && d.issued <= e.issued
    requires id !in d.issued || id !in e.boxes
    ensures Evolves(d, e)
  {
    forall b | b in d.issued && b in e.boxes ensures KeepsPace(d, e, b) {
      OtherFootprintKept(d, e, id, b);
    }
  }

  lemma CreatedRows(d: Db, id: Id, slug: string, name: string, hostId: string, edition: Option<string>, seed: BoxNarrator)
    requires ValidDb(d) && CreateBox(d, id, slug, name, hostId, edition, seed).1.Done?
    ensures var e := CreateBox(d, id, slug, name, hostId, edition, seed).0;
            OtherBoxesKept(d, e, id) && e.issued == d.issued + {id} && ValidDb(e)
  {
  }

  lemma CreateBoxEvolves(d: Db, id: Id, slug: string, name: string, hostId: string, edition: Option<string>, seed: BoxNarrator)
    requires ValidDb(d) && id !in d.issued
    ensures ValidDb(CreateBox(d, id, slug, name, hostId, edition, seed).0)
    ensures Evolves(d, CreateBox(d, id, slug, name, hostId, edition, seed).0)
  {
    if CreateBox(d, id, slug, name, hostId, edition, seed).1.Done? {
      CreatedRows(d, id, slug, name, hostId, edition, seed);
      OneBoxGoneOrNew(d, CreateBox(d, id, slug, name, hostId, edition, seed).0, id);
    } else {
      EvolvesReflexive(d);
    }
  }

  lemma DeleteBoxEvolves(d: Db, id: Id)
    requires ValidDb(d)
    ensures ValidDb(DeleteBox(d, id).0) && Evolves(d, DeleteBox(d, id).0)
  {
    EvolvesReflexive(d);
    if id in d.boxes {
      var e := DeleteBox(d, id).0;
      forall b | b != id ensures SameRows(d, e, b) {
      }
      OneBoxGoneOrNew(d, e, id);
    }
  }

  /** A change to one box's own rows, bumped on that box alone. */
  lemma OwnRowsEvolve(d: Db, mid: Db, id: Id)
    requires ValidDb(d) && OtherBoxesKept(d, mid, id)
    requires mid.issued == d.issued && mid.boxes.Keys == d.boxes.Keys
    requires id in d.boxes ==> mid.boxes[id].version == d.boxes[id].version
    ensures ValidDb(Bump(mid, {id})) && Evolves(d, Bump(mid, {id}))
  {
    forall b | b in d.boxes && b != id ensures FootprintOf(d, b) == FootprintOf(mid, b) {
      OtherFootprintKept(d, mid, id, b);
    }
    forall b | b in d.boxes ensures mid.boxes[b].version == d.boxes[b].version {
      if b != id {
        OtherFootprintKept(d, mid, id, b);
      }
    }
    BumpedEvolves(d, mid, {id});
  }

  lemma UpdateBoxEvolves(d: Db, id: Id, name: string, hostId: string, edition: Option<string>)
    requires ValidDb(d)
    ensures ValidDb(UpdateBox(d, id, name, hostId, edition).0) && Evolves(d, UpdateBox(d, id, name, hostId, edition).0)
  {
    if id in d.boxes && edition.Some? {
      OwnRowsEvolve(d, d.(boxes := d.boxes[id := d.boxes[id].(name := name, hostId := hostId, edition := edition.value)]), id);
    }
  }

  lemma SetBoxOrgsEvolves(d: Db, id: Id, orgIds: seq<Id>)
    requires ValidDb(d)
    ensures ValidDb(SetBoxOrgs(d, id, orgIds).0) && Evolves(d, SetBoxOrgs(d, id, orgIds).0)
  {
    OwnRowsEvolve(d, d.(boxOrgs := d.boxOrgs[id := set o | o in orgIds]), id);
  }

  lemma UpdateBoxNarratorEvolves(d: Db, id: Id, being: Being, newId: Id, now: int)
    requires ValidDb(d)
    ensures ValidDb(UpdateBoxNarrator(d, id, being, newId, now).0)
    ensures Evolves(d, UpdateBoxNarrator(d, id, being, newId, now).0)
  {
    EvolvesReflexive(d);
    if ValidGender(being.gender) {
      var row := if id in d.narrators then d.narrators[id].(being := being, updatedAt := now)
                 else BoxNarrator(newId, being, now, now);
      OwnRowsEvolve(d, d.(narrators := d.narrators[id := row]), id);
    }
  }

  /** The same for a table keyed by box and purpose. */
  lemma PurposeRowsEvolve(d: Db, id: Id, overrides: map<Id, map<Purpose, Id>>, boxLimits: map<Id, map<Purpose, Limits>>)
    requires ValidDb(d)
    requires forall b | b != id :: RowsOf(overrides, b) == RowsOf(d.overrides, b)
    requires forall b | b != id :: RowsOf(boxLimits, b) == RowsOf(d.boxLimits, b)
    ensures ValidDb(Bump(d.(overrides := overrides, boxLimits := boxLimits), {id}))
    ensures Evolves(d, Bump(d.(overrides := overrides, boxLimits := boxLimits), {id}))
  {
    OwnRowsEvolve(d, d.(overrides := overrides, boxLimits := boxLimits), id);
  }

  /** A box that does not carry an organization reads none of its rows, so the narrow bump is enough. */
  lemma OrgFootprintKept(d: Db, e: Db, id: Id, b: Id)
    requires e == d.(orgs := e.orgs, orgStaff := e.orgStaff)
    requires forall o | o != id :: (o in d.orgs <==> o in e.orgs) && (o in d.orgs ==> d.orgs[o] == e.orgs[o])
    requires forall o | o != id :: RowsOf(d.orgStaff, o) == RowsOf(e.orgStaff, o)
    requires b in d.boxes && id !in BoundOrgs(d, b)
    ensures FootprintOf(d, b) == FootprintOf(e, b)
  {
    assert FootprintOf(d, b).orgs == FootprintOf(e, b).orgs;
    assert FootprintOf(d, b).tuning == FootprintOf(e, b).tuning;
  }

  lemma OrgRowsEvolve(d: Db, orgs: map<Id, Org>, orgStaff: map<Id, map<Id, StaffOverride>>, id: Id)
    requires ValidDb(d)
    requires forall o | o != id :: (o in d.orgs <==> o in orgs) && (o in d.orgs ==> d.orgs[o] == orgs[o])
    requires forall o | o != id :: RowsOf(d.orgStaff, o) == RowsOf(orgStaff, o)
    ensures ValidDb(BumpForOrg(d.(orgs := orgs, orgStaff := orgStaff), id))
    ensures Evolves(d, BumpForOrg(d.(orgs := orgs, orgStaff := orgStaff), id))
  {
    var mid := d.(orgs := orgs, orgStaff := orgStaff);
    forall b | b in d.boxes && b !in Carrying(mid, id) ensures FootprintOf(d, b) == FootprintOf(mid, b) {
      assert BoundOrgs(mid, b) == BoundOrgs(d, b);
      OrgFootprintKept(d, mid, id, b);
    }
    BumpedEvolves(d, mid, Carrying(mid, id));
  }

  lemma CreateOrgEvolves(d: Db, id: Id, org: Org)
    requires ValidDb(d) && forall b | b in d.boxOrgs :: id !in d.boxOrgs[b]
    ensures ValidDb(CreateOrg(d, id, org).0) && Evolves(d, CreateOrg(d, id, org).0)
  {
    EvolvesReflexive(d);
    if id !in d.orgs {
      var e := CreateOrg(d, id, org).0;
      forall b | b in d.issued && b in e.boxes ensures KeepsPace(d, e, b) {
        OrgFootprintKept(d, e, id, b);
      }
    }
  }

  lemma FleetEvolves(d: Db, mid: Db)
    requires ValidDb(d) && mid.issued == d.issued && mid.boxes == d.boxes
    ensures ValidDb(BumpAll(mid)) && Evolves(d, BumpAll(mid))
  {
    BumpedEvolves(d, mid, d.boxes.Keys);
  }

  lemma UnboundRowsEvolve(d: Db, e: Db)
    requires ValidDb(d)
    requires e == d.(models := e.models, assignmentsSeeded := e.assignmentsSeeded, limitsSeeded := e.limitsSeeded)
    requires PinView(e.models) == PinView(d.models)
    ensures Evolves(d, e)
  {
  }

  lemma SetModelMetaEvolves(d: Db, id: Id, learned: Learned, size: int)
    requires ValidDb(d) && (id in d.models ==> d.models[id].pin.size == size)
    ensures ValidDb(SetModelMeta(d, id, learned, size).0) && Evolves(d, SetModelMeta(d, id, learned, size).0)
  {
    var e := SetModelMeta(d, id, learned, size).0;
    assert PinView(e.models) == PinView(d.models);
    UnboundRowsEvolve(d, e);
  }

  lemma SeedModelsEvolves(d: Db, seeds: seq<SeedModel>)
    requires ValidDb(d)
    ensures ValidDb(SeedModels(d, seeds).0) && Evolves(d, SeedModels(d, seeds).0)
  {
    EvolvesReflexive(d);
    FleetEvolves(d, d.(models := SeedPass(d.models, seeds)));
  }

  lemma SeedAssignmentsEvolves(d: Db, picks: seq<(Purpose, Id)>)
    requires ValidDb(d)
    ensures ValidDb(SeedAssignments(d, picks).0) && Evolves(d, SeedAssignments(d, picks).0)
  {
    EvolvesReflexive(d);
    UnboundRowsEvolve(d, d.(assignmentsSeeded := true));
    FleetEvolves(d, d.(assignments := FillAssignments(d, picks, d.assignments), assignmentsSeeded := true));
  }

  lemma SeedLimitsEvolves(d: Db, ceilings: seq<(Purpose, Limits)>)
    requires ValidDb(d)
    ensures ValidDb(SeedLimits(d, ceilings).0) && Evolves(d, SeedLimits(d, ceilings).0)
  {
    EvolvesReflexive(d);
    UnboundRowsEvolve(d, d.(limitsSeeded := true));
    FleetEvolves(d, d.(limits := FillLimits(ceilings, d.limits), limitsSeeded := true));
  }

  lemma RenameOrgEvolves(d: Db, id: Id, name: string)
    requires ValidDb(d)
    ensures ValidDb(RenameOrg(d, id, name).0) && Evolves(d, RenameOrg(d, id, name).0)
  {
    var orgs := if id in d.orgs then d.orgs[id := d.orgs[id].(name := name)] else d.orgs;
    OrgRowsEvolve(d, orgs, d.orgStaff, id);
  }

  lemma SetOrgLevelEvolves(d: Db, id: Id, level: string)
    requires ValidDb(d)
    ensures ValidDb(SetOrgLevel(d, id, level).0) && Evolves(d, SetOrgLevel(d, id, level).0)
  {
    var orgs := if id in d.orgs then d.orgs[id := d.orgs[id].(level := level)] else d.orgs;
    OrgRowsEvolve(d, orgs, d.orgStaff, id);
  }

  lemma SetOrgStaffOverrideEvolves(d: Db, id: Id, staffId: Id, ov: StaffOverride)
    requires ValidDb(d)
    ensures ValidDb(SetOrgStaffOverride(d, id, staffId, ov).0) && Evolves(d, SetOrgStaffOverride(d, id, staffId, ov).0)
  {
    OrgRowsEvolve(d, d.orgs, PutRow(d.orgStaff, id, staffId, ov), id);
  }

  lemma ClearOrgStaffOverrideEvolves(d: Db, id: Id, staffId: Id)
    requires ValidDb(d)
    ensures ValidDb(ClearOrgStaffOverride(d, id, staffId).0) && Evolves(d, ClearOrgStaffOverride(d, id, staffId).0)
  {
    OrgRowsEvolve(d, d.orgs, DropRow(d.orgStaff, id, staffId), id);
  }

  lemma SetBoxModelOverrideEvolves(d: Db, id: Id, raw: Option<Purpose>, modelId: Id)
    requires ValidDb(d)
    ensures ValidDb(SetBoxModelOverride(d, id, raw, modelId).0) && Evolves(d, SetBoxModelOverride(d, id, raw, modelId).0)
  {
    EvolvesReflexive(d);
    if raw.Some? {
      PurposeRowsEvolve(d, id, PutRow(d.overrides, id, raw.value, modelId), d.boxLimits);
    }
  }

  lemma ClearBoxModelOverrideEvolves(d: Db, id: Id, purpose: Purpose)
    requires ValidDb(d)
    ensures ValidDb(ClearBoxModelOverride(d, id, purpose).0) && Evolves(d, ClearBoxModelOverride(d, id, purpose).0)
  {
    EvolvesReflexive(d);
    PurposeRowsEvolve(d, id, DropRow(d.overrides, id, purpose), d.boxLimits);
  }

  lemma PutBoxLimitEvolves(d: Db, id: Id, p: Purpose, l: Limits)
    requires ValidDb(d)
    ensures var e := Bump(d.(boxLimits := PutRow(d.boxLimits, id, p, l)), {id}); ValidDb(e) && Evolves(d, e)
  {
    PurposeRowsEvolve(d, id, d.overrides, PutRow(d.boxLimits, id, p, l));
  }

  lemma SetBoxLimitEvolves(d: Db, id: Id, raw: Option<Purpose>, l: Limits)
    requires ValidDb(d)
    ensures ValidDb(SetBoxLimit(d, id, raw, l).0) && Evolves(d, SetBoxLimit(d, id, raw, l).0)
  {
    EvolvesReflexive(d);
    if SetBoxLimit(d, id, raw, l).1.Done? {
      PutBoxLimitEvolves(d, id, raw.value, l);
    }
  }

  lemma ClearBoxLimitEvolves(d: Db, id: Id, purpose: Purpose)
    requires ValidDb(d)
    ensures ValidDb(ClearBoxLimit(d, id, purpose).0) && Evolves(d, ClearBoxLimit(d, id, purpose).0)
  {
    EvolvesReflexive(d);
    PurposeRowsEvolve(d, id, d.overrides, DropRow(d.boxLimits, id, purpose));
  }

  lemma BoxStepEvolves(d: Db, w: BoxWrite)
    requires ValidDb(d) && Admissible(d, OnBox(w))
    ensures ValidDb(ApplyBox(d, w).0) && Evolves(d, ApplyBox(d, w).0)
  {
    match w
    case CreatingBox(id, slug, name, hostId, edition, seed) => CreateBoxEvolves(d, id, slug, name, hostId, edition, seed);
    case UpdatingBox(id, name, hostId, edition) => UpdateBoxEvolves(d, id, name, hostId, edition);
    case SettingBoxOrgs(id, orgIds) => SetBoxOrgsEvolves(d, id, orgIds);
    case DeletingBox(id) => DeleteBoxEvolves(d, id);
    case UpdatingNarrator(id, being, newId, now) => UpdateBoxNarratorEvolves(d, id, being, newId, now);
  }

  lemma UpsertStaffEvolves(d: Db, slug: string, being: Being, newId: Id, now: int)
    requires ValidDb(d)
    ensures ValidDb(UpsertStaff(d, slug, being, newId, now).0) && Evolves(d, UpsertStaff(d, slug, being, newId, now).0)
  {
    EvolvesReflexive(d);
    FleetEvolves(d, d.(staff := UpsertStaff(d, slug, being, newId, now).0.staff));
  }

  lemma OrgStepEvolves(d: Db, w: OrgWrite)
    requires ValidDb(d) && Admissible(d, OnOrg(w))
    ensures ValidDb(ApplyOrg(d, w).0) && Evolves(d, ApplyOrg(d, w).0)
  {
    match w
    case CreatingOrg(id, org) => CreateOrgEvolves(d, id, org);
    case RenamingOrg(id, name) => RenameOrgEvolves(d, id, name);
    case SettingOrgLevel(id, level) => SetOrgLevelEvolves(d, id, level);
    case UpsertingStaff(slug, being, newId, now) => UpsertStaffEvolves(d, slug, being, newId, now);
    case SettingOrgStaff(id, staffId, ov) => SetOrgStaffOverrideEvolves(d, id, staffId, ov);
    case ClearingOrgStaff(id, staffId) => ClearOrgStaffOverrideEvolves(d, id, staffId);
  }

  lemma PinStepEvolves(d: Db, w: PinWrite)
    requires ValidDb(d)
    ensures ValidDb(ApplyPin(d, w).0) && Evolves(d, ApplyPin(d, w).0)
  {
    EvolvesReflexive(d);
    match w
    case SettingAssignment(raw, modelId) =>
      if raw.Some? {
        FleetEvolves(d, d.(assignments := d.assignments[raw.value := modelId]));
      }
    case ClearingAssignment(purpose) => FleetEvolves(d, d.(assignments := d.assignments - {purpose}));
    case SettingOverride(id, raw, modelId) => SetBoxModelOverrideEvolves(d, id, raw, modelId);
    case ClearingOverride(id, purpose) => ClearBoxModelOverrideEvolves(d, id, purpose);
  }

  lemma LimitStepEvolves(d: Db, w: LimitWrite)
    requires ValidDb(d)
    ensures ValidDb(ApplyLimit(d, w).0) && Evolves(d, ApplyLimit(d, w).0)
  {
    EvolvesReflexive(d);
    match w
    case SettingLimit(raw, l) =>
      if raw.Some? {
        FleetEvolves(d, d.(limits := d.limits[raw.value := l]));
      }
    case ClearingLimit(purpose) => FleetEvolves(d, d.(limits := d.limits - {purpose}));
    case SettingBoxLimit(id, raw, l) => SetBoxLimitEvolves(d, id, raw, l);
    case ClearingBoxLimit(id, purpose) => ClearBoxLimitEvolves(d, id, purpose);
  }

  lemma PutModelEvolves(d: Db, e: Db, id: Id, row: Model)
    requires ValidDb(d) && e == BumpAll(d.(models := d.models[id := row]))
    ensures ValidDb(e) && Evolves(d, e)
  {
    FleetEvolves(d, d.(models := d.models[id := row]));
  }

  lemma CreateModelEvolves(d: Db, id: Id, form: PinForm)
    requires ValidDb(d)
    ensures ValidDb(CreateModel(d, id, form).0) && Evolves(d, CreateModel(d, id, form).0)
  {
    EvolvesReflexive(d);
    var e := CreateModel(d, id, form);
    if e.1.Done? {
      PutModelEvolves(d, e.0, id, e.0.models[id]);
    }
  }

  lemma UpdateModelEvolves(d: Db, id: Id, form: PinForm)
    requires ValidDb(d)
    ensures ValidDb(UpdateModel(d, id, form).0) && Evolves(d, UpdateModel(d, id, form).0)
  {
    EvolvesReflexive(d);
    if Parsed(form).Success? {
      PutRowOfEvolves(d, id, Parsed(form).value);
    }
  }

  lemma SetModelFilesEvolves(d: Db, id: Id, files: seq<ModelFile>)
    requires ValidDb(d)
    ensures ValidDb(SetModelFiles(d, id, files).0) && Evolves(d, SetModelFiles(d, id, files).0)
  {
    EvolvesReflexive(d);
    PutFilesEvolves(d, id, files);
  }

  lemma DeleteModelEvolves(d: Db, id: Id)
    requires ValidDb(d)
    ensures ValidDb(DeleteModel(d, id).0) && Evolves(d, DeleteModel(d, id).0)
  {
    EvolvesReflexive(d);
    FleetEvolves(d, d.(models := d.models - {id}));
  }

  lemma ModelStepEvolves(d: Db, w: ModelWrite)
    requires ValidDb(d) && Admissible(d, OnModel(w))
    ensures ValidDb(ApplyModel(d, w).0) && Evolves(d, ApplyModel(d, w).0)
  {
    match w
    case CreatingModel(id, form) => CreateModelEvolves(d, id, form);
    case UpdatingModel(id, form) => UpdateModelEvolves(d, id, form);
    case SettingFiles(id, files) => SetModelFilesEvolves(d, id, files);
    case SettingMeta(id, learned, size) => SetModelMetaEvolves(d, id, learned, size);
    case DeletingModel(id) => DeleteModelEvolves(d, id);
  }

  lemma SeedStepEvolves(d: Db, w: SeedWrite)
    requires ValidDb(d)
    ensures ValidDb(ApplySeed(d, w).0) && Evolves(d, ApplySeed(d, w).0)
  {
    match w
    case SeedingModels(seeds) => SeedModelsEvolves(d, seeds);
    case SeedingAssignments(picks) => SeedAssignmentsEvolves(d, picks);
    case SeedingLimits(ceilings) => SeedLimitsEvolves(d, ceilings);
  }

  lemma PutRowOfEvolves(d: Db, id: Id, row: PinRow)
    requires ValidDb(d)
    ensures ValidDb(PutRowOf(d, id, row).0) && Evolves(d, PutRowOf(d, id, row).0)
  {
    EvolvesReflexive(d);
    if id in d.models {
      PutModelEvolves(d, PutRowOf(d, id, row).0, id, WithRow(d.models[id], row));
    }
  }

  lemma PutFilesEvolves(d: Db, id: Id, files: seq<ModelFile>)
    requires ValidDb(d)
    ensures ValidDb(PutFiles(d, id, files).0) && Evolves(d, PutFiles(d, id, files).0)
  {
    EvolvesReflexive(d);
    var e := PutFiles(d, id, files);
    if e.1.Done? {
      PutModelEvolves(d, e.0, id, e.0.models[id]);
    }
  }

  lemma HalfStepEvolves(d: Db, h: HalfWrite)
    requires ValidDb(d)
    ensures ValidDb(ApplyHalf(d, h).0) && Evolves(d, ApplyHalf(d, h).0)
  {
    EvolvesReflexive(d);
    match h
    case PuttingRow(id, row) => PutRowOfEvolves(d, id, row);
    case PuttingFiles(id, files) => PutFilesEvolves(d, id, files);
    case DroppingModel(id) => FleetEvolves(d, d.(models := d.models - {id}));
    case PuttingAssignment(purpose, modelId) => FleetEvolves(d, d.(assignments := d.assignments[purpose := modelId]));
    case PuttingOverride(id, purpose, modelId) =>
      PurposeRowsEvolve(d, id, PutRow(d.overrides, id, purpose, modelId), d.boxLimits);
  }

  lemma StepEvolves(d: Db, w: Write)
    requires ValidDb(d) && Admissible(d, w)
    ensures ValidDb(Apply(d, w).0) && Evolves(d, Apply(d, w).0)
  {
    match w
    case OnBox(bw) => BoxStepEvolves(d, bw);
    case OnOrg(ow) => OrgStepEvolves(d, ow);
    case OnPin(pw) => PinStepEvolves(d, pw);
    case OnLimit(lw) => LimitStepEvolves(d, lw);
    case OnModel(mw) => ModelStepEvolves(d, mw);
    case OnSeed(sw) => SeedStepEvolves(d, sw);
    case OnHalf(h) => HalfStepEvolves(d, h);
  }

  lemma {:induction false} RunEvolves(d: Db, ws: seq<Write>)
    requires ValidDb(d) && AdmissibleRun(d, ws)
    ensures ValidDb(Run(d, ws)) && Evolves(d, Run(d, ws))
    decreases |ws|
  {
    if ws == [] {
      EvolvesReflexive(d);
    } else {
      StepEvolves(d, ws[0]);
      RunEvolves(Apply(d, ws[0]).0, ws[1..]);
      EvolvesTransitive(d, Apply(d, ws[0]).0, Run(d, ws));
    }
  }

  // --- what a box holds ---

  /** The manifest a box holds is what a build would answer now, unless the box's version has moved on. */
  ghost predicate Coherent(db: Db, boxId: Id, held: Manifest) {
    && boxId in db.issued
    && (boxId in db.boxes ==>
          && held.box.version <= db.boxes[boxId].version
          && (held.box.version == db.boxes[boxId].version ==> BuildManifest(db, boxId) == Success(held)))
  }

  lemma CoherentKept(d: Db, e: Db, boxId: Id, held: Manifest)
    requires Evolves(d, e) && Coherent(d, boxId, held)
    ensures Coherent(e, boxId, held)
  {
    if boxId in e.boxes {
      assert KeepsPace(d, e, boxId);
    }
  }

  /** A poll at or past the current version is answered "not modified". */
  predicate NotModified(db: Db, boxId: Id, since: int) {
    boxId in db.boxes && since >= db.boxes[boxId].version
  }

  /**
    After any run of writes, a box polling with the version it holds is told "not modified" exactly when
    no write has moved its version, and then what it holds is what a build would answer now.
   */
  lemma NotModifiedIsTrue(d: Db, ws: seq<Write>, boxId: Id, held: Manifest)
    requires ValidDb(d) && AdmissibleRun(d, ws) && Coherent(d, boxId, held)
    ensures var e := Run(d, ws);
            && (NotModified(e, boxId, held.box.version) <==> boxId in e.boxes && e.boxes[boxId].version == held.box.version)
            && (NotModified(e, boxId, held.box.version) ==> BuildManifest(e, boxId) == Success(held))
  {
    RunEvolves(d, ws);
    CoherentKept(d, Run(d, ws), boxId, held);
  }
}
