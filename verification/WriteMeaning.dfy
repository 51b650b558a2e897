/**
  What the store's writes accept, and what each leaves in its tables: every refusal by its reason, every row by
  its columns, and what stays true of all rows over whole runs.
 */
module WriteMeaning {
  import opened Wrappers
  import opened BoxTables
  import opened BoxManifest
  import opened BoxWrites
  import opened ModelFiles
  import opened Text

  /** The same database but for the versions of its boxes: what a write did besides its bump. */
  predicate SameButVersions(d: Db, e: Db) {
    && e.boxes.Keys == d.boxes.Keys
    && (forall b :: b in d.boxes ==> e.boxes[b].(version := 0) == d.boxes[b].(version := 0))
    && e.(boxes := d.boxes) == d
  }

  lemma BumpSame(db: Db, ids: set<Id>)
    ensures SameButVersions(Bump(db, ids), db)
  {
  }

  // --- boxes ---

  /** A box is created exactly under a known edition and a slug of its own, at version 1, with a narrator if it has none. */
  lemma CreateBoxMeans(db: Db, id: Id, slug: string, name: string, hostId: string, edition: Option<string>, seed: BoxNarrator)
    ensures var (e, reply) := CreateBox(db, id, slug, name, hostId, edition, seed);
      && (reply == Done <==> edition.Some? && forall b :: b in db.boxes ==> db.boxes[b].slug != slug)
      && (edition.None? ==> reply == Refused(BadEdition)) && (reply != Done ==> e == db)
      && (edition.Some? && reply != Done ==> reply == Refused(SlugTaken))
      && (reply == Done ==>
            && e.boxes == db.boxes[id := Box(slug, name, hostId, edition.value, 1)]
            && e.narrators == (if id in db.narrators then db.narrators else db.narrators[id := seed])
            && id in e.issued && e.(boxes := db.boxes, narrators := db.narrators, issued := db.issued) == db)
  {
  }

  lemma UpdateBoxMeans(db: Db, id: Id, name: string, hostId: string, edition: Option<string>)
    ensures var (e, reply) := UpdateBox(db, id, name, hostId, edition);
      && reply == (if edition.None? then Refused(BadEdition) else if id !in db.boxes then Missing else Done)
      && (reply != Done ==> e == db)
  {
  }

  /** A deleted box takes its bindings, its narrator and its overrides with it; its limits stay behind. */
  lemma DeleteBoxMeans(db: Db, id: Id)
    ensures var (e, reply) := DeleteBox(db, id);
      && reply == (if id in db.boxes then Done else Missing) && (reply == Missing ==> e == db)
      && (reply == Done ==>
            && id !in e.boxes && id !in e.boxOrgs && id !in e.narrators && id !in e.overrides
            && (forall b :: b != id ==> (b in e.boxes <==> b in db.boxes) && (b in e.boxes ==> e.boxes[b] == db.boxes[b]))
            && e.boxLimits == db.boxLimits && e.limits == db.limits && e.models == db.models && e.assignments == db.assignments
            && e.orgs == db.orgs && e.staff == db.staff && e.orgStaff == db.orgStaff && e.issued == db.issued)
      && (forall b :: b != id ==> (b in e.boxOrgs <==> b in db.boxOrgs) && (b in e.boxOrgs ==> e.boxOrgs[b] == db.boxOrgs[b]))
  {
  }

  lemma BeingsAccepted(db: Db, boxId: Id, slug: string, being: Being, newId: Id, now: int)
    ensures UpdateBoxNarrator(db, boxId, being, newId, now).1 ==
            if being.gender in {"male", "female"} then Done else Refused(BadGender)
    ensures UpsertStaff(db, slug, being, newId, now).1 ==
            if "st_b_" <= slug || slug == "narrator" then Refused(BadSlug)
            else if being.gender in {"male", "female"} then Done else Refused(BadGender)
    ensures UpdateBoxNarrator(db, boxId, being, newId, now).1 != Done ==> UpdateBoxNarrator(db, boxId, being, newId, now).0 == db
    ensures UpsertStaff(db, slug, being, newId, now).1 != Done ==> UpsertStaff(db, slug, being, newId, now).0 == db
  {
  }

  // --- organizations ---

  lemma CreateOrgMeans(db: Db, id: Id, org: Org)
    ensures CreateOrg(db, id, org) ==
      if id in db.orgs then (db, Refused(IdTaken)) else (db.(orgs := db.orgs[id := org]), Done)
  {
  }

  /** A new name or level is written to that organization's row and nowhere else; the bump is all that a missing one gets. */
  lemma OrgEditsMean(db: Db, id: Id, text: string)
    ensures var e := RenameOrg(db, id, text).0;
      SameButVersions(e, db.(orgs := if id in db.orgs then db.orgs[id := Org(text, db.orgs[id].level)] else db.orgs))
    ensures var e := SetOrgLevel(db, id, text).0;
      SameButVersions(e, db.(orgs := if id in db.orgs then db.orgs[id := Org(db.orgs[id].name, text)] else db.orgs))
  {
  }

  // --- assignments, overrides and limits ---

  /** Why a pin may not be pointed at, the first reason first. */
  lemma PinRefusals(db: Db, boxId: Id, purpose: Option<Purpose>, modelId: Id)
    ensures var why :=
        if modelId !in db.models then Refused(UnknownModel)
        else if purpose.Some? && purpose.value !in db.models[modelId].purposes then Refused(PurposeMismatch)
        else if db.models[modelId].pin.digest == "" then Refused(Unverified) else Done;
      && SetAssignment(db, purpose, modelId).1 == (if purpose.None? then Refused(BadPurpose) else why)
      && SetBoxModelOverride(db, boxId, purpose, modelId).1 ==
           (if purpose.None? then Refused(BadPurpose) else if boxId !in db.boxes then Refused(UnknownBox) else why)
  {
  }

  /** An assignment is one entry of its table, written or cleared. */
  lemma AssignmentMeans(db: Db, p: Purpose, modelId: Id)
    ensures SameButVersions(PutAssignment(db, p, modelId).0, db.(assignments := db.assignments[p := modelId]))
  {
    BumpSame(db.(assignments := db.assignments[p := modelId]), db.boxes.Keys);
  }

  lemma ClearAssignmentMeans(db: Db, p: Purpose)
    ensures ClearAssignment(db, p).1 == if p in db.assignments then Done else Missing
    ensures SameButVersions(ClearAssignment(db, p).0, db.(assignments := db.assignments - {p}))
  {
    BumpSame(db.(assignments := db.assignments - {p}), db.boxes.Keys);
  }

  lemma PutCell(db: Db, b: Id, p: Purpose, modelId: Id, c: Id, q: Purpose)
    ensures var rows := PutOverride(db, b, p, modelId).0.overrides;
      && (c in rows && q in rows[c] <==> (c == b && q == p) || (c in db.overrides && q in db.overrides[c]))
      && (c in rows && q in rows[c] ==> rows[c][q] == if c == b && q == p then modelId else db.overrides[c][q])
  {
  }

  lemma ClearCell(db: Db, b: Id, p: Purpose, c: Id, q: Purpose)
    ensures var rows := ClearBoxModelOverride(db, b, p).0.overrides;
      && (c in rows && q in rows[c] <==> !(c == b && q == p) && c in db.overrides && q in db.overrides[c])
      && (c in rows && q in rows[c] ==> rows[c][q] == db.overrides[c][q])
  {
  }

  /** An override is one cell of its table, written or cleared. */
  lemma OverrideMeans(db: Db, b: Id, p: Purpose, modelId: Id)
    ensures var e := PutOverride(db, b, p, modelId).0; SameButVersions(e, db.(overrides := e.overrides))
  {
    BumpSame(db.(overrides := PutRow(db.overrides, b, p, modelId)), {b});
  }

  lemma ClearOverrideMeans(db: Db, b: Id, p: Purpose)
    ensures ClearBoxModelOverride(db, b, p).1 == if b in db.overrides && p in db.overrides[b] then Done else Missing
    ensures var e := ClearBoxModelOverride(db, b, p).0; SameButVersions(e, db.(overrides := e.overrides))
  {
    BumpSame(db.(overrides := DropRow(db.overrides, b, p)), {b});
  }

  /** A ceiling of 0 to 32768 tokens and any time that is not negative. */
  predicate MayBeSet(l: Limits) {
    0 <= l.maxTokens && l.maxTokens <= 32768 && 0 <= l.timeoutSeconds
  }

  lemma LimitMeans(db: Db, purpose: Option<Purpose>, l: Limits)
    ensures SetLimit(db, purpose, l).1 ==
            if purpose.None? then Refused(BadPurpose) else if MayBeSet(l) then Done else Refused(BadLimits)
    ensures SetLimit(db, purpose, l).1 == Done ==>
      SameButVersions(SetLimit(db, purpose, l).0, db.(limits := db.limits[purpose.value := l]))
    ensures SetLimit(db, purpose, l).1 != Done ==> SetLimit(db, purpose, l).0 == db
  {
  }

  lemma ClearLimitMeans(db: Db, p: Purpose)
    ensures ClearLimit(db, p).1 == if p in db.limits then Done else Missing
    ensures SameButVersions(ClearLimit(db, p).0, db.(limits := db.limits - {p}))
  {
  }

  lemma BoxLimitMeans(db: Db, b: Id, purpose: Option<Purpose>, l: Limits, p: Purpose)
    ensures SetBoxLimit(db, b, purpose, l).1 ==
            if purpose.None? then Refused(BadPurpose) else if !MayBeSet(l) then Refused(BadLimits)
            else if b in db.boxes then Done else Refused(UnknownBox)
    ensures SetBoxLimit(db, b, purpose, l).1 != Done ==> SetBoxLimit(db, b, purpose, l).0 == db
    ensures ClearBoxLimit(db, b, p).1 == if b in db.boxLimits && p in db.boxLimits[b] then Done else Missing
  {
  }

  // --- the registry ---

  /** A form is good exactly when it names a purpose, and its purposes and quantization are known. */
  predicate GoodForm(f: PinForm) {
    f.purposes.Some? && |f.purposes.value| > 0 && f.quant.Some?
  }

  lemma FormRefusals(f: PinForm)
    ensures Parsed(f).Success? <==> GoodForm(f)
    ensures Parsed(f).Failure? ==>
      Parsed(f).error == if f.purposes.None? || |f.purposes.value| == 0 then BadPurpose else BadQuant
  {
  }

  /** A new pin is the form, with its first purpose as its own, no files, no size and nothing learned. */
  lemma CreateModelMeans(db: Db, id: Id, f: PinForm)
    ensures var (e, reply) := CreateModel(db, id, f);
      && (reply == Done <==> GoodForm(f) && id !in db.models)
      && (GoodForm(f) && id in db.models ==> reply == Refused(IdTaken)) && (reply != Done ==> e == db)
      && (reply == Done ==>
            && SameButVersions(e, db.(models := e.models)) && e.models == db.models[id := e.models[id]]
            && e.models[id].org == f.org && e.models[id].purposes == f.purposes.value
            && e.models[id].purpose == f.purposes.value[0]
            && e.models[id].pin == Pin(f.source, f.quant.value, f.file, f.digest, f.licence, "", 0, [])
            && e.models[id].learned == Learned("", "", "", "", 0, 0, false))
  {
  }

  /** An update writes the form's columns and leaves the engine, the size, the files and what was learned. */
  lemma UpdateModelMeans(db: Db, id: Id, f: PinForm)
    ensures var (e, reply) := UpdateModel(db, id, f);
      && (reply == Done <==> GoodForm(f) && id in db.models && ValidFiles(f.file, db.models[id].pin.files))
      && (GoodForm(f) && reply != Done ==> reply == if id in db.models then Refused(BadFiles) else Missing)
      && (reply != Done ==> e == db)
      && (reply == Done ==>
            && e.models == db.models[id := e.models[id]]
            && var m, was := e.models[id], db.models[id];
               && m.org == f.org && m.purposes == f.purposes.value && m.purpose == f.purposes.value[0] && m.learned == was.learned
               && m.pin == Pin(f.source, f.quant.value, f.file, f.digest, f.licence, was.pin.engine, was.pin.size, was.pin.files))
  {
  }

  lemma FilesWriteMeans(db: Db, id: Id, files: seq<ModelFile>)
    ensures var (e, reply) := SetModelFiles(db, id, files);
      && reply == (if id !in db.models then Missing
                   else if ValidFiles(db.models[id].pin.file, files) then Done else Refused(BadFiles))
      && (reply != Done ==> e == db)
      && (reply == Done ==> e.models == db.models[id := e.models[id]]
                            && e.models[id] == db.models[id].(pin := db.models[id].pin.(files := files)))
  {
  }

  lemma MetaMeans(db: Db, id: Id, learned: Learned, size: int)
    ensures var (e, reply) := SetModelMeta(db, id, learned, size);
      && reply == (if id in db.models then Done else Missing)
      && (id in db.models ==>
            e == db.(models := db.models[id := db.models[id].(learned := learned, pin := db.models[id].pin.(size := size))]))
      && (id !in db.models ==> e == db)
  {
  }

  /** A pin goes exactly when neither the fleet nor any box points at it. */
  lemma DeleteModelMeans(db: Db, id: Id)
    ensures var (e, reply) := DeleteModel(db, id);
      var pointed := (exists p :: p in db.assignments && db.assignments[p] == id)
                     || (exists b, p :: b in db.overrides && p in db.overrides[b] && db.overrides[b][p] == id);
      && reply == (if pointed then Refused(StillInUse) else if id in db.models then Done else Missing)
      && SameButVersions(e, db.(models := if reply == Done then db.models - {id} else db.models))
  {
  }

  // --- what holds of every row, over runs ---

  /** No two boxes share a slug, and every box has a narrator of a known gender. */
  ghost predicate BoxesOk(boxes: map<Id, Box>, narrators: map<Id, BoxNarrator>) {
    && (forall a, b :: a in boxes && b in boxes && boxes[a].slug == boxes[b].slug ==> a == b)
    && boxes.Keys <= narrators.Keys
    && (forall b :: b in narrators ==> narrators[b].being.gender in {"male", "female"})
  }

  ghost predicate StaffOk(staff: map<string, StaffRow>) {
    forall slug :: slug in staff ==>
      !("st_b_" <= slug) && slug != "narrator" && staff[slug].being.gender in {"male", "female"}
  }

  ghost predicate LimitsOk(limits: map<Purpose, Limits>, boxLimits: map<Id, map<Purpose, Limits>>) {
    && (forall p :: p in limits ==> MayBeSet(limits[p]))
    && (forall b, p :: b in boxLimits && p in boxLimits[b] ==> MayBeSet(boxLimits[b][p]))
  }

  ghost predicate RowsOk(db: Db) {
    BoxesOk(db.boxes, db.narrators) && StaffOk(db.staff) && LimitsOk(db.limits, db.boxLimits)
  }

  /** What the hub's own seeds are: a narrator of a known gender, ceilings an admin could set. */
  predicate GoodSeed(w: Write) {
    match w
    case OnBox(CreatingBox(_, _, _, _, _, seed)) => seed.being.gender in {"male", "female"}
    case OnSeed(SeedingLimits(ceilings)) => forall c :: c in ceilings ==> MayBeSet(c.1)
    case _ => true
  }

  /** The slugs and the narrators are as they were. */
  predicate RowsLeft(d: Db, e: Db) {
    && e.narrators == d.narrators && e.boxes.Keys == d.boxes.Keys
    && forall b :: b in d.boxes ==> e.boxes[b].slug == d.boxes[b].slug
  }

  lemma LeftOk(d: Db, e: Db)
    requires BoxesOk(d.boxes, d.narrators) && RowsLeft(d, e)
    ensures BoxesOk(e.boxes, e.narrators)
  {
  }

  /** A write to other tables and its bump. */
  lemma Bumped(d: Db, x: Db, ids: set<Id>)
    requires x.boxes == d.boxes && x.narrators == d.narrators
    ensures var e := Bump(x, ids);
      RowsLeft(d, e) && e.staff == x.staff && e.limits == x.limits && e.boxLimits == x.boxLimits
  {
  }

  lemma CreateBoxOk(d: Db, id: Id, slug: string, name: string, hostId: string, edition: Option<string>, seed: BoxNarrator)
    requires BoxesOk(d.boxes, d.narrators) && seed.being.gender in {"male", "female"}
    ensures var e := CreateBox(d, id, slug, name, hostId, edition, seed).0; BoxesOk(e.boxes, e.narrators)
  {
    CreateBoxMeans(d, id, slug, name, hostId, edition, seed);
  }

  lemma DeleteBoxOk(d: Db, id: Id)
    requires BoxesOk(d.boxes, d.narrators)
    ensures var e := DeleteBox(d, id).0; BoxesOk(e.boxes, e.narrators)
  {
  }

  lemma NarratorOk(d: Db, boxId: Id, being: Being, newId: Id, now: int)
    requires BoxesOk(d.boxes, d.narrators)
    ensures var e := UpdateBoxNarrator(d, boxId, being, newId, now).0; BoxesOk(e.boxes, e.narrators)
  {
  }

  lemma UpdateBoxOk(d: Db, id: Id, name: string, hostId: string, edition: Option<string>)
    requires BoxesOk(d.boxes, d.narrators)
    ensures var e := UpdateBox(d, id, name, hostId, edition).0; BoxesOk(e.boxes, e.narrators) && RowsLeft(d, e)
  {
    if edition.Some? && id in d.boxes {
      var x := d.(boxes := d.boxes[id := d.boxes[id].(name := name, hostId := hostId, edition := edition.value)]);
      Bumped(x, x, {id});
      LeftOk(d, UpdateBox(d, id, name, hostId, edition).0);
    }
  }

  lemma SetBoxOrgsOk(d: Db, id: Id, orgIds: seq<Id>)
    requires BoxesOk(d.boxes, d.narrators)
    ensures var e := SetBoxOrgs(d, id, orgIds).0; BoxesOk(e.boxes, e.narrators)
  {
    Bumped(d, d.(boxOrgs := d.boxOrgs[id := set o | o in orgIds]), {id});
    LeftOk(d, SetBoxOrgs(d, id, orgIds).0);
  }

  lemma BoxStepOk(d: Db, w: BoxWrite)
    requires BoxesOk(d.boxes, d.narrators) && GoodSeed(OnBox(w))
    ensures BoxesOk(ApplyBox(d, w).0.boxes, ApplyBox(d, w).0.narrators)
  {
    match w
    case CreatingBox(id, slug, name, hostId, edition, seed) => CreateBoxOk(d, id, slug, name, hostId, edition, seed);
    case UpdatingBox(id, name, hostId, edition) => UpdateBoxOk(d, id, name, hostId, edition);
    case SettingBoxOrgs(id, orgIds) => SetBoxOrgsOk(d, id, orgIds);
    case DeletingBox(id) => DeleteBoxOk(d, id);
    case UpdatingNarrator(id, being, newId, now) => NarratorOk(d, id, being, newId, now);
  }

  /** Box writes leave the staff and every limit alone. */
  lemma BoxStepLeaves(d: Db, w: BoxWrite)
    ensures ApplyBox(d, w).0.staff == d.staff && ApplyBox(d, w).0.boxLimits == d.boxLimits
  {
    match w
    case CreatingBox(id, slug, name, hostId, edition, seed) => CreateBoxLeaves(d, id, slug, name, hostId, edition, seed);
    case UpdatingBox(id, name, hostId, edition) => UpdateLeaves(d, id, name, hostId, edition);
    case SettingBoxOrgs(id, orgIds) => SetOrgsLeaves(d, id, orgIds);
    case DeletingBox(id) => DeleteBoxLeaves(d, id);
    case UpdatingNarrator(id, being, newId, now) => NarratorLeaves(d, id, being, newId, now);
  }

  lemma CreateBoxLeaves(d: Db, id: Id, slug: string, name: string, hostId: string, edition: Option<string>, seed: BoxNarrator)
    ensures var e := CreateBox(d, id, slug, name, hostId, edition, seed).0; e.staff == d.staff && e.boxLimits == d.boxLimits
  {
  }

  lemma SetOrgsLeaves(d: Db, id: Id, orgIds: seq<Id>)
    ensures var e := SetBoxOrgs(d, id, orgIds).0; e.staff == d.staff && e.boxLimits == d.boxLimits
  {
    Bumped(d, d.(boxOrgs := d.boxOrgs[id := set o | o in orgIds]), {id});
  }

  lemma DeleteBoxLeaves(d: Db, id: Id)
    ensures DeleteBox(d, id).0.staff == d.staff && DeleteBox(d, id).0.boxLimits == d.boxLimits
  {
  }

  lemma UpdateLeaves(d: Db, id: Id, name: string, hostId: string, edition: Option<string>)
    ensures var e := UpdateBox(d, id, name, hostId, edition).0; e.staff == d.staff && e.boxLimits == d.boxLimits
  {
  }

  lemma NarratorLeaves(d: Db, boxId: Id, being: Being, newId: Id, now: int)
    ensures var e := UpdateBoxNarrator(d, boxId, being, newId, now).0; e.staff == d.staff && e.boxLimits == d.boxLimits
  {
  }

  predicate LimitsLeft(d: Db, e: Db) {
    RowsLeft(d, e) && e.boxLimits == d.boxLimits && e.limits == d.limits
  }

  predicate AllLeft(d: Db, e: Db) {
    LimitsLeft(d, e) && e.staff == d.staff
  }

  lemma OrgEditLeaves(d: Db, id: Id, text: string)
    ensures AllLeft(d, RenameOrg(d, id, text).0) && AllLeft(d, SetOrgLevel(d, id, text).0)
  {
    var named := d.(orgs := if id in d.orgs then d.orgs[id := d.orgs[id].(name := text)] else d.orgs);
    var levelled := d.(orgs := if id in d.orgs then d.orgs[id := d.orgs[id].(level := text)] else d.orgs);
    Bumped(d, named, Carrying(named, id));
    Bumped(d, levelled, Carrying(levelled, id));
  }

  lemma OrgStaffLeaves(d: Db, id: Id, staffId: Id, ov: StaffOverride)
    ensures AllLeft(d, SetOrgStaffOverride(d, id, staffId, ov).0) && AllLeft(d, ClearOrgStaffOverride(d, id, staffId).0)
  {
    var put := d.(orgStaff := PutRow(d.orgStaff, id, staffId, ov));
    var dropped := d.(orgStaff := DropRow(d.orgStaff, id, staffId));
    Bumped(d, put, Carrying(put, id));
    Bumped(d, dropped, Carrying(dropped, id));
  }

  lemma UpsertLeaves(d: Db, slug: string, being: Being, newId: Id, now: int)
    ensures LimitsLeft(d, UpsertStaff(d, slug, being, newId, now).0)
  {
    var row := if slug in d.staff then d.staff[slug].(being := being, updatedAt := now) else StaffRow(newId, being, now, now);
    Bumped(d, d.(staff := d.staff[slug := row]), d.boxes.Keys);
  }

  lemma OrgStepLeaves(d: Db, w: OrgWrite)
    ensures LimitsLeft(d, ApplyOrg(d, w).0) && (!w.UpsertingStaff? ==> ApplyOrg(d, w).0.staff == d.staff)
  {
    match w
    case CreatingOrg(id, org) =>
    case RenamingOrg(id, name) => OrgEditLeaves(d, id, name);
    case SettingOrgLevel(id, level) => OrgEditLeaves(d, id, level);
    case UpsertingStaff(slug, being, newId, now) => UpsertLeaves(d, slug, being, newId, now);
    case SettingOrgStaff(id, staffId, ov) => OrgStaffLeaves(d, id, staffId, ov);
    case ClearingOrgStaff(id, staffId) =>
      OrgStaffLeaves(d, id, staffId, StaffOverride(None, None, None, None, None, None, None, None));
  }

  lemma OrgStepOk(d: Db, w: OrgWrite)
    requires StaffOk(d.staff)
    ensures StaffOk(ApplyOrg(d, w).0.staff)
  {
    OrgStepLeaves(d, w);
    if w.UpsertingStaff? {
      UpsertOk(d, w.slug, w.being, w.newId, w.now);
    }
  }

  lemma UpsertOk(d: Db, slug: string, being: Being, newId: Id, now: int)
    requires StaffOk(d.staff)
    ensures StaffOk(UpsertStaff(d, slug, being, newId, now).0.staff)
  {
    BeingsAccepted(d, "", slug, being, newId, now);
  }

  lemma PutAssignmentLeaves(d: Db, p: Purpose, modelId: Id)
    ensures AllLeft(d, PutAssignment(d, p, modelId).0) && AllLeft(d, ClearAssignment(d, p).0)
  {
    Bumped(d, d.(assignments := d.assignments[p := modelId]), d.boxes.Keys);
    Bumped(d, d.(assignments := d.assignments - {p}), d.boxes.Keys);
  }

  lemma PutOverrideLeaves(d: Db, id: Id, p: Purpose, modelId: Id)
    ensures AllLeft(d, PutOverride(d, id, p, modelId).0) && AllLeft(d, ClearBoxModelOverride(d, id, p).0)
  {
    Bumped(d, d.(overrides := PutRow(d.overrides, id, p, modelId)), {id});
    Bumped(d, d.(overrides := DropRow(d.overrides, id, p)), {id});
  }

  lemma SetAssignmentLeaves(d: Db, raw: Option<Purpose>, modelId: Id)
    ensures AllLeft(d, SetAssignment(d, raw, modelId).0)
  {
    if raw.Some? { PutAssignmentLeaves(d, raw.value, modelId); }
  }

  lemma SetOverrideLeaves(d: Db, id: Id, raw: Option<Purpose>, modelId: Id)
    ensures AllLeft(d, SetBoxModelOverride(d, id, raw, modelId).0)
  {
    if raw.Some? { PutOverrideLeaves(d, id, raw.value, modelId); }
  }

  lemma PinStepLeaves(d: Db, w: PinWrite)
    ensures AllLeft(d, ApplyPin(d, w).0)
  {
    match w
    case SettingAssignment(raw, modelId) => SetAssignmentLeaves(d, raw, modelId);
    case ClearingAssignment(p) => PutAssignmentLeaves(d, p, "");
    case SettingOverride(id, raw, modelId) => SetOverrideLeaves(d, id, raw, modelId);
    case ClearingOverride(id, p) => PutOverrideLeaves(d, id, p, "");
  }

  predicate BoxesLeft(d: Db, e: Db) {
    RowsLeft(d, e) && e.staff == d.staff
  }

  lemma FleetLimitLeaves(d: Db, p: Purpose, l: Limits)
    ensures BoxesLeft(d, SetLimit(d, Some(p), l).0) && BoxesLeft(d, ClearLimit(d, p).0)
  {
    Bumped(d, d.(limits := d.limits[p := l]), d.boxes.Keys);
    Bumped(d, d.(limits := d.limits - {p}), d.boxes.Keys);
  }

  lemma BoxLimitLeaves(d: Db, id: Id, p: Purpose, l: Limits)
    ensures BoxesLeft(d, SetBoxLimit(d, id, Some(p), l).0) && BoxesLeft(d, ClearBoxLimit(d, id, p).0)
  {
    Bumped(d, d.(boxLimits := PutRow(d.boxLimits, id, p, l)), {id});
    Bumped(d, d.(boxLimits := DropRow(d.boxLimits, id, p)), {id});
  }

  lemma LimitStepLeaves(d: Db, w: LimitWrite)
    ensures BoxesLeft(d, ApplyLimit(d, w).0)
  {
    match w
    case SettingLimit(raw, l) => if raw.Some? { FleetLimitLeaves(d, raw.value, l); }
    case ClearingLimit(p) => FleetLimitLeaves(d, p, Limits(0, 0));
    case SettingBoxLimit(id, raw, l) => if raw.Some? { BoxLimitLeaves(d, id, raw.value, l); }
    case ClearingBoxLimit(id, p) => BoxLimitLeaves(d, id, p, Limits(0, 0));
  }

  lemma SetLimitOk(d: Db, raw: Option<Purpose>, l: Limits)
    requires LimitsOk(d.limits, d.boxLimits)
    ensures var e := SetLimit(d, raw, l).0; LimitsOk(e.limits, e.boxLimits)
  {
    if raw.Some? && MayBeSet(l) {
      Bumped(d, d.(limits := d.limits[raw.value := l]), d.boxes.Keys);
    }
  }

  lemma ClearLimitOk(d: Db, p: Purpose)
    requires LimitsOk(d.limits, d.boxLimits)
    ensures var e := ClearLimit(d, p).0; LimitsOk(e.limits, e.boxLimits)
  {
    Bumped(d, d.(limits := d.limits - {p}), d.boxes.Keys);
  }

  lemma ClearBoxLimitOk(d: Db, id: Id, p: Purpose)
    requires LimitsOk(d.limits, d.boxLimits)
    ensures var e := ClearBoxLimit(d, id, p).0; LimitsOk(e.limits, e.boxLimits)
  {
    PutLimitOk(d.limits, d.boxLimits, id, p, Limits(0, 0));
    Bumped(d, d.(boxLimits := DropRow(d.boxLimits, id, p)), {id});
  }

  lemma SetBoxLimitOk(d: Db, id: Id, raw: Option<Purpose>, l: Limits)
    requires LimitsOk(d.limits, d.boxLimits)
    ensures var e := SetBoxLimit(d, id, raw, l).0; LimitsOk(e.limits, e.boxLimits)
  {
    if MayBeSet(l) && raw.Some? {
      Bumped(d, d.(boxLimits := PutRow(d.boxLimits, id, raw.value, l)), {id});
      PutLimitOk(d.limits, d.boxLimits, id, raw.value, l);
    }
  }

  lemma PutLimitOk(limits: map<Purpose, Limits>, boxLimits: map<Id, map<Purpose, Limits>>, id: Id, p: Purpose, l: Limits)
    requires LimitsOk(limits, boxLimits)
    ensures MayBeSet(l) ==> LimitsOk(limits, PutRow(boxLimits, id, p, l))
    ensures LimitsOk(limits, DropRow(boxLimits, id, p))
  {
  }

  lemma LimitStepOk(d: Db, w: LimitWrite)
    requires LimitsOk(d.limits, d.boxLimits)
    ensures LimitsOk(ApplyLimit(d, w).0.limits, ApplyLimit(d, w).0.boxLimits)
  {
    match w
    case SettingLimit(raw, l) => SetLimitOk(d, raw, l);
    case ClearingLimit(p) => ClearLimitOk(d, p);
    case SettingBoxLimit(id, raw, l) => SetBoxLimitOk(d, id, raw, l);
    case ClearingBoxLimit(id, p) => ClearBoxLimitOk(d, id, p);
  }

  lemma RowLeaves(d: Db, models: map<Id, Model>)
    ensures AllLeft(d, BumpAll(d.(models := models)))
  {
    Bumped(d, d.(models := models), d.boxes.Keys);
  }

  lemma PutRowLeaves(d: Db, id: Id, row: PinRow)
    ensures AllLeft(d, PutRowOf(d, id, row).0)
  {
    if id in d.models { RowLeaves(d, d.models[id := WithRow(d.models[id], row)]); }
  }

  lemma PutFilesLeaves(d: Db, id: Id, files: seq<ModelFile>)
    ensures AllLeft(d, PutFiles(d, id, files).0)
  {
    if id in d.models { RowLeaves(d, d.models[id := d.models[id].(pin := d.models[id].pin.(files := files))]); }
  }

  lemma DropLeaves(d: Db, id: Id)
    ensures AllLeft(d, DropModel(d, id).0)
  {
    RowLeaves(d, d.models - {id});
  }

  lemma CreateLeaves(d: Db, id: Id, f: PinForm)
    ensures AllLeft(d, CreateModel(d, id, f).0)
  {
    if Parsed(f).Success? && id !in d.models {
      var pin := Pin(f.source, f.quant.value, f.file, f.digest, f.licence, "", 0, []);
      var row := Model(f.org, f.purposes.value[0], f.purposes.value, pin, Learned("", "", "", "", 0, 0, false));
      RowLeaves(d, d.models[id := row]);
    }
  }

  lemma UpdateModelLeaves(d: Db, id: Id, f: PinForm)
    ensures AllLeft(d, UpdateModel(d, id, f).0)
  {
    if Parsed(f).Success? { PutRowLeaves(d, id, Parsed(f).value); }
  }

  lemma FilesLeave(d: Db, id: Id, files: seq<ModelFile>)
    ensures AllLeft(d, SetModelFiles(d, id, files).0)
  {
    PutFilesLeaves(d, id, files);
  }

  lemma MetaLeaves(d: Db, id: Id, learned: Learned, size: int)
    ensures AllLeft(d, SetModelMeta(d, id, learned, size).0)
  {
  }

  lemma DeleteLeaves(d: Db, id: Id)
    ensures AllLeft(d, DeleteModel(d, id).0)
  {
    DropLeaves(d, id);
  }

  lemma ModelStepLeaves(d: Db, w: ModelWrite)
    ensures AllLeft(d, ApplyModel(d, w).0)
  {
    match w
    case CreatingModel(id, form) => CreateLeaves(d, id, form);
    case UpdatingModel(id, form) => UpdateModelLeaves(d, id, form);
    case SettingFiles(id, files) => FilesLeave(d, id, files);
    case SettingMeta(id, learned, size) => MetaLeaves(d, id, learned, size);
    case DeletingModel(id) => DeleteLeaves(d, id);
  }

  lemma HalfStepLeaves(d: Db, h: HalfWrite)
    ensures AllLeft(d, ApplyHalf(d, h).0)
  {
    match h
    case PuttingRow(id, row) => PutRowLeaves(d, id, row);
    case PuttingFiles(id, files) => PutFilesLeaves(d, id, files);
    case DroppingModel(id) => DropLeaves(d, id);
    case PuttingAssignment(p, modelId) => PutAssignmentLeaves(d, p, modelId);
    case PuttingOverride(id, p, modelId) => PutOverrideLeaves(d, id, p, modelId);
  }

  lemma SeedModelsLeaves(d: Db, seeds: seq<SeedModel>)
    ensures AllLeft(d, SeedModels(d, seeds).0)
  {
    RowLeaves(d, SeedPass(d.models, seeds));
  }

  lemma SeedAssignmentsLeaves(d: Db, picks: seq<(Purpose, Id)>)
    ensures AllLeft(d, SeedAssignments(d, picks).0)
  {
    Bumped(d, d.(assignments := FillAssignments(d, picks, d.assignments), assignmentsSeeded := true), d.boxes.Keys);
  }

  lemma SeedLimitsLeaves(d: Db, ceilings: seq<(Purpose, Limits)>)
    ensures BoxesLeft(d, SeedLimits(d, ceilings).0) && SeedLimits(d, ceilings).0.boxLimits == d.boxLimits
  {
    PutSeedLimitsLeaves(d, ceilings);
  }

  lemma PutSeedLimitsLeaves(d: Db, ceilings: seq<(Purpose, Limits)>)
    ensures BoxesLeft(d, PutSeedLimits(d, ceilings).0) && PutSeedLimits(d, ceilings).0.boxLimits == d.boxLimits
  {
    Bumped(d, d.(limits := FillLimits(ceilings, d.limits), limitsSeeded := true), d.boxes.Keys);
  }

  lemma SeedStepLeaves(d: Db, w: SeedWrite)
    ensures var e := ApplySeed(d, w).0; BoxesLeft(d, e) && e.boxLimits == d.boxLimits
    ensures !w.SeedingLimits? ==> ApplySeed(d, w).0.limits == d.limits
  {
    match w
    case SeedingModels(seeds) => SeedModelsLeaves(d, seeds);
    case SeedingAssignments(picks) => SeedAssignmentsLeaves(d, picks);
    case SeedingLimits(ceilings) => SeedLimitsLeaves(d, ceilings);
  }

  /** The seed of the limits answers every purpose it names that has no answer, first come first served, and no other. */
  lemma {:induction false} FilledLimitsMean(wants: seq<(Purpose, Limits)>, out: map<Purpose, Limits>, p: Purpose)
    ensures var r := FillLimits(wants, out);
      && (p in out ==> p in r && r[p] == out[p])
      && (p in r && p !in out ==> (p, r[p]) in wants)
      && (p in r <==> p in out || exists l :: (p, l) in wants)
    decreases |wants|
  {
    if wants != [] {
      var next := if wants[0].0 !in out then out[wants[0].0 := wants[0].1] else out;
      FilledLimitsMean(wants[1..], next, p);
      assert wants[0] in wants && forall w :: w in wants <==> w == wants[0] || w in wants[1..];
    }
  }

  lemma SeedLimitsMean(d: Db, ceilings: seq<(Purpose, Limits)>)
    ensures var (e, reply) := SeedLimits(d, ceilings);
      && e.limitsSeeded && (d.limitsSeeded ==> e == d)
      && e.limits == if d.limitsSeeded then d.limits else FillLimits(ceilings, d.limits)
  {
    if !d.limitsSeeded && AllLimited(d, ceilings) {
      NothingToFill(ceilings, d.limits);
    }
  }

  lemma {:induction false} NothingToFill(wants: seq<(Purpose, Limits)>, out: map<Purpose, Limits>)
    requires forall w | w in wants :: w.0 in out
    ensures FillLimits(wants, out) == out
    decreases |wants|
  {
    if wants != [] {
      assert wants[0] in wants && forall w :: w in wants[1..] ==> w in wants;
      NothingToFill(wants[1..], out);
    }
  }

  lemma SeedStepOk(d: Db, w: SeedWrite)
    requires LimitsOk(d.limits, d.boxLimits) && GoodSeed(OnSeed(w))
    ensures LimitsOk(ApplySeed(d, w).0.limits, ApplySeed(d, w).0.boxLimits)
  {
    SeedStepLeaves(d, w);
    if w.SeedingLimits? {
      SeedLimitsMean(d, w.ceilings);
      forall p | p in FillLimits(w.ceilings, d.limits) ensures MayBeSet(FillLimits(w.ceilings, d.limits)[p]) {
        FilledLimitsMean(w.ceilings, d.limits, p);
      }
    }
  }

  lemma StepKeepsRowsOk(d: Db, w: Write)
    requires RowsOk(d) && GoodSeed(w)
    ensures RowsOk(Apply(d, w).0)
  {
    match w
    case OnBox(bw) => BoxStepOk(d, bw); BoxStepLeaves(d, bw);
    case OnOrg(ow) => OrgStepLeaves(d, ow); OrgStepOk(d, ow); LeftOk(d, ApplyOrg(d, ow).0);
    case OnPin(pw) => PinStepLeaves(d, pw); LeftOk(d, ApplyPin(d, pw).0);
    case OnLimit(lw) => LimitStepLeaves(d, lw); LimitStepOk(d, lw); LeftOk(d, ApplyLimit(d, lw).0);
    case OnModel(mw) => ModelStepLeaves(d, mw); LeftOk(d, ApplyModel(d, mw).0);
    case OnSeed(sw) => SeedStepLeaves(d, sw); SeedStepOk(d, sw); LeftOk(d, ApplySeed(d, sw).0);
    case OnHalf(h) => HalfStepLeaves(d, h); LeftOk(d, ApplyHalf(d, h).0);
  }

  /**
    Over any run, in any interleaving, no two boxes ever share a slug, every box has a narrator, and no staff
    member, narrator or limit is ever stored that its write should have refused.
   */
  lemma {:induction false} RunKeepsRowsOk(d: Db, ws: seq<Write>)
    requires RowsOk(d) && forall w :: w in ws ==> GoodSeed(w)
    ensures RowsOk(Run(d, ws))
    decreases |ws|
  {
    if ws != [] {
      assert ws[0] in ws && forall w :: w in ws[1..] ==> w in ws;
      StepKeepsRowsOk(d, ws[0]);
      RunKeepsRowsOk(Apply(d, ws[0]).0, ws[1..]);
    }
  }
}
