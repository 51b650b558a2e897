/**
  Every store write that touches a table a manifest reads, as a function from the database before
  to the database after and the reply. Each write commits with the config_version bump it causes.
 */
module BoxWrites {
  import opened Wrappers
  import opened BoxTables
  import opened ModelFiles

  datatype Refusal =
    | BadEdition | SlugTaken | BadSlug | BadGender | BadPurpose | BadQuant | BadLimits | BadFiles
    | UnknownBox | UnknownModel | PurposeMismatch | Unverified | IdTaken | StillInUse

  datatype Reply = Done | Missing | Refused(why: Refusal)

  type Outcome = (Db, Reply)

  const MAX_TOKENS_CAP := 32768
  const NARRATOR_SLUG := "narrator"

  /** The version bump of the given boxes; a missing box is no row to update. */
  function Bump(db: Db, ids: set<Id>): Db {
    db.(boxes := map b | b in db.boxes ::
      if b in ids then db.boxes[b].(version := db.boxes[b].version + 1) else db.boxes[b])
  }

  /** bumpAllBoxes */
  function BumpAll(db: Db): Db {
    Bump(db, db.boxes.Keys)
  }

  function Carrying(db: Db, orgId: Id): set<Id> {
    set b | b in db.boxes && orgId in BoundOrgs(db, b)
  }

  /** bumpConfigForOrg */
  function BumpForOrg(db: Db, orgId: Id): Db {
    Bump(db, Carrying(db, orgId))
  }

  /** A write moves the version of exactly the boxes in its scope, by one; a refused or empty one moves none. */
  ghost predicate MovesBy(db: Db, r: Outcome, ids: set<Id>) {
    forall b | b in db.boxes && b in r.0.boxes ::
      r.0.boxes[b].version == db.boxes[b].version + (if r.1.Done? && b in ids then 1 else 0)
  }

  // --- boxes ---

  function CreateBox(db: Db, id: Id, slug: string, name: string, hostId: string, edition: Option<string>,
                     seed: BoxNarrator): Outcome {
    if edition.None? then (db, Refused(BadEdition))
    else if exists b | b in db.boxes :: db.boxes[b].slug == slug then (db, Refused(SlugTaken))
    else
      (db.(issued := db.issued + {id},
           boxes := db.boxes[id := Box(slug, name, hostId, edition.value, 1)],
           narrators := if id in db.narrators then db.narrators else db.narrators[id := seed]), Done)
  }

  function UpdateBox(db: Db, id: Id, name: string, hostId: string, edition: Option<string>): (r: Outcome)
    ensures MovesBy(db, r, {id})
  {
    if edition.None? then (db, Refused(BadEdition))
    else if id !in db.boxes then (db, Missing)
    else
      (Bump(db.(boxes := db.boxes[id := db.boxes[id].(name := name, hostId := hostId, edition := edition.value)]),
            {id}), Done)
  }

  function SetBoxOrgs(db: Db, id: Id, orgIds: seq<Id>): (r: Outcome)
    ensures MovesBy(db, r, {id})
  {
    (Bump(db.(boxOrgs := db.boxOrgs[id := set o | o in orgIds]), {id}), Done)
  }

  /** The limit overrides stay behind: the source does not delete them. */
  function DeleteBox(db: Db, id: Id): (r: Outcome)
    ensures MovesBy(db, r, {})
  {
    if id !in db.boxes then (db, Missing)
    else
      (db.(boxOrgs := db.boxOrgs - {id},
           narrators := db.narrators - {id},
           overrides := db.overrides - {id},
           boxes := db.boxes - {id}), Done)
  }

  function UpdateBoxNarrator(db: Db, boxId: Id, being: Being, newId: Id, now: int): (r: Outcome)
    ensures MovesBy(db, r, {boxId})
  {
    if !ValidGender(being.gender) then (db, Refused(BadGender))
    else
      var row := if boxId in db.narrators
                 then db.narrators[boxId].(being := being, updatedAt := now)
                 else BoxNarrator(newId, being, now, now);
      (Bump(db.(narrators := db.narrators[boxId := row]), {boxId}), Done)
  }

  // --- organizations and staff ---

  function CreateOrg(db: Db, id: Id, org: Org): (r: Outcome)
    ensures MovesBy(db, r, {})
  {
    if id in db.orgs then (db, Refused(IdTaken)) else (db.(orgs := db.orgs[id := org]), Done)
  }

  function RenameOrg(db: Db, id: Id, name: string): (r: Outcome)
    ensures MovesBy(db, r, Carrying(db, id))
  {
    var orgs := if id in db.orgs then db.orgs[id := db.orgs[id].(name := name)] else db.orgs;
    (BumpForOrg(db.(orgs := orgs), id), Done)
  }

  function SetOrgLevel(db: Db, id: Id, level: string): (r: Outcome)
    ensures MovesBy(db, r, Carrying(db, id))
  {
    var orgs := if id in db.orgs then db.orgs[id := db.orgs[id].(level := level)] else db.orgs;
    (BumpForOrg(db.(orgs := orgs), id), Done)
  }

  predicate ValidGender(gender: string) {
    gender == "male" || gender == "female"
  }

  predicate ValidStaffSlug(slug: string) {
    !("st_b_" <= slug) && slug != NARRATOR_SLUG
  }

  function UpsertStaff(db: Db, slug: string, being: Being, newId: Id, now: int): (r: Outcome)
    ensures MovesBy(db, r, db.boxes.Keys)
  {
    if !ValidStaffSlug(slug) then (db, Refused(BadSlug))
    else if !ValidGender(being.gender) then (db, Refused(BadGender))
    else
      var row := if slug in db.staff
                 then db.staff[slug].(being := being, updatedAt := now)
                 else StaffRow(newId, being, now, now);
      (BumpAll(db.(staff := db.staff[slug := row])), Done)
  }

  function SetOrgStaffOverride(db: Db, orgId: Id, staffId: Id, ov: StaffOverride): (r: Outcome)
    ensures MovesBy(db, r, Carrying(db, orgId))
  {
    (BumpForOrg(db.(orgStaff := PutRow(db.orgStaff, orgId, staffId, ov)), orgId), Done)
  }

  function ClearOrgStaffOverride(db: Db, orgId: Id, staffId: Id): (r: Outcome)
    ensures MovesBy(db, r, Carrying(db, orgId))
  {
    (BumpForOrg(db.(orgStaff := DropRow(db.orgStaff, orgId, staffId)), orgId), Done)
  }

  // --- model assignments, overrides and limits ---

  /** The cross-validation a pin passes before anything may point at it. */
  function PinRefusal(db: Db, purpose: Purpose, modelId: Id): Option<Refusal> {
    if modelId !in db.models then Some(UnknownModel)
    else if purpose !in db.models[modelId].purposes then Some(PurposeMismatch)
    else if db.models[modelId].pin.digest == "" then Some(Unverified)
    else None
  }

  function SetAssignment(db: Db, purpose: Option<Purpose>, modelId: Id): (r: Outcome)
    ensures MovesBy(db, r, db.boxes.Keys)
  {
    if purpose.None? then (db, Refused(BadPurpose))
    else if PinRefusal(db, purpose.value, modelId).Some? then
      (db, Refused(PinRefusal(db, purpose.value, modelId).value))
    else PutAssignment(db, purpose.value, modelId)
  }

  /** The write half of SetAssignment, which runs after the pin was read and outside its snapshot. */
  function PutAssignment(db: Db, purpose: Purpose, modelId: Id): (r: Outcome)
    ensures MovesBy(db, r, db.boxes.Keys) && r.1.Done?
  {
    (BumpAll(db.(assignments := db.assignments[purpose := modelId])), Done)
  }

  function ClearAssignment(db: Db, purpose: Purpose): (r: Outcome)
    ensures MovesBy(db, r, db.boxes.Keys)
  {
    if purpose !in db.assignments then (db, Missing)
    else (BumpAll(db.(assignments := db.assignments - {purpose})), Done)
  }

  function SetBoxModelOverride(db: Db, boxId: Id, purpose: Option<Purpose>, modelId: Id): (r: Outcome)
    ensures MovesBy(db, r, {boxId})
  {
    if purpose.None? then (db, Refused(BadPurpose))
    else if boxId !in db.boxes then (db, Refused(UnknownBox))
    else if PinRefusal(db, purpose.value, modelId).Some? then
      (db, Refused(PinRefusal(db, purpose.value, modelId).value))
    else PutOverride(db, boxId, purpose.value, modelId)
  }

  /** The write half of SetBoxModelOverride, likewise. */
  function PutOverride(db: Db, boxId: Id, purpose: Purpose, modelId: Id): (r: Outcome)
    ensures MovesBy(db, r, {boxId}) && r.1.Done?
  {
    (Bump(db.(overrides := PutRow(db.overrides, boxId, purpose, modelId)), {boxId}), Done)
  }

  function ClearBoxModelOverride(db: Db, boxId: Id, purpose: Purpose): (r: Outcome)
    ensures MovesBy(db, r, {boxId})
  {
    if purpose !in RowsOf(db.overrides, boxId) then (db, Missing)
    else (Bump(db.(overrides := DropRow(db.overrides, boxId, purpose)), {boxId}), Done)
  }

  predicate ValidLimits(l: Limits) {
    0 <= l.maxTokens <= MAX_TOKENS_CAP && 0 <= l.timeoutSeconds
  }

  function SetLimit(db: Db, purpose: Option<Purpose>, l: Limits): (r: Outcome)
    ensures MovesBy(db, r, db.boxes.Keys)
  {
    if purpose.None? then (db, Refused(BadPurpose))
    else if !ValidLimits(l) then (db, Refused(BadLimits))
    else (BumpAll(db.(limits := db.limits[purpose.value := l])), Done)
  }

  function ClearLimit(db: Db, purpose: Purpose): (r: Outcome)
    ensures MovesBy(db, r, db.boxes.Keys)
  {
    if purpose !in db.limits then (db, Missing)
    else (BumpAll(db.(limits := db.limits - {purpose})), Done)
  }

  function SetBoxLimit(db: Db, boxId: Id, purpose: Option<Purpose>, l: Limits): (r: Outcome)
    ensures MovesBy(db, r, {boxId})
  {
    if purpose.None? then (db, Refused(BadPurpose))
    else if !ValidLimits(l) then (db, Refused(BadLimits))
    else if boxId !in db.boxes then (db, Refused(UnknownBox))
    else (Bump(db.(boxLimits := PutRow(db.boxLimits, boxId, purpose.value, l)), {boxId}), Done)
  }

  function ClearBoxLimit(db: Db, boxId: Id, purpose: Purpose): (r: Outcome)
    ensures MovesBy(db, r, {boxId})
  {
    if purpose !in RowsOf(db.boxLimits, boxId) then (db, Missing)
    else (Bump(db.(boxLimits := DropRow(db.boxLimits, boxId, purpose)), {boxId}), Done)
  }

  // --- the model registry ---

  /** The fields an admin submits for a pin; `quant` and `purposes` are what their parsers answered. */
  datatype PinForm = PinForm(org: string, source: string, quant: Option<string>, file: string, digest: string,
                             licence: string, purposes: Option<seq<Purpose>>)

  function CreateModel(db: Db, id: Id, f: PinForm): (r: Outcome)
    ensures MovesBy(db, r, db.boxes.Keys)
  {
    if f.purposes.None? || f.purposes.value == [] then (db, Refused(BadPurpose))
    else if f.quant.None? then (db, Refused(BadQuant))
    else if id in db.models then (db, Refused(IdTaken))
    else
      var pin := Pin(f.source, f.quant.value, f.file, f.digest, f.licence, "", 0, []);
      var row := Model(f.org, f.purposes.value[0], f.purposes.value, pin, Learned("", "", "", "", 0, 0, false));
      (BumpAll(db.(models := db.models[id := row])), Done)
  }

  /** A form past its parsers: the columns UpdateModel writes. */
  datatype PinRow = PinRow(org: string, source: string, quant: string, file: string, digest: string,
                           licence: string, purpose: Purpose, purposes: seq<Purpose>)

  function Parsed(f: PinForm): Result<PinRow, Refusal> {
    if f.purposes.None? || f.purposes.value == [] then Failure(BadPurpose)
    else if f.quant.None? then Failure(BadQuant)
    else Success(PinRow(f.org, f.source, f.quant.value, f.file, f.digest, f.licence,
                        f.purposes.value[0], f.purposes.value))
  }

  function UpdateModel(db: Db, id: Id, f: PinForm): (r: Outcome)
    ensures MovesBy(db, r, db.boxes.Keys)
  {
    if Parsed(f).Failure? then (db, Refused(Parsed(f).error))
    else if id !in db.models then (db, Missing)
    else if !ValidFiles(f.file, db.models[id].pin.files) then (db, Refused(BadFiles))
    else PutRowOf(db, id, Parsed(f).value)
  }

  /** The same pins, pointed at as before. */
  predicate RowsKept(d: Db, e: Db) {
    e.models.Keys == d.models.Keys && e.assignments == d.assignments && e.overrides == d.overrides
  }

  function WithRow(m: Model, row: PinRow): Model {
    var pin := m.pin.(source := row.source, quant := row.quant, file := row.file, digest := row.digest,
                      licence := row.licence);
    m.(org := row.org, purpose := row.purpose, purposes := row.purposes, pin := pin)
  }

  /** The write half of UpdateModel, which runs after the pin was read and outside its snapshot. */
  function PutRowOf(db: Db, id: Id, row: PinRow): (r: Outcome)
    ensures MovesBy(db, r, db.boxes.Keys)
    ensures RowsKept(db, r.0)
  {
    if id !in db.models then (db, Missing)
    else (BumpAll(db.(models := db.models[id := WithRow(db.models[id], row)])), Done)
  }

  function SetModelFiles(db: Db, id: Id, files: seq<ModelFile>): (r: Outcome)
    ensures MovesBy(db, r, db.boxes.Keys)
  {
    if id !in db.models then (db, Missing)
    else if !ValidFiles(db.models[id].pin.file, files) then (db, Refused(BadFiles))
    else PutFiles(db, id, files)
  }

  /** The write half of SetModelFiles, likewise. */
  function PutFiles(db: Db, id: Id, files: seq<ModelFile>): (r: Outcome)
    ensures MovesBy(db, r, db.boxes.Keys)
    ensures RowsKept(db, r.0)
  {
    if id !in db.models then (db, Missing)
    else
      var row := db.models[id].(pin := db.models[id].pin.(files := files));
      (BumpAll(db.(models := db.models[id := row])), Done)
  }

  /** The one write to a manifest column that bumps nothing. */
  function SetModelMeta(db: Db, id: Id, learned: Learned, size: int): (r: Outcome)
    ensures MovesBy(db, r, {})
  {
    if id !in db.models then (db, Missing)
    else
      var row := db.models[id].(learned := learned, pin := db.models[id].pin.(size := size));
      (db.(models := db.models[id := row]), Done)
  }

  predicate InUse(assignments: map<Purpose, Id>, overrides: map<Id, map<Purpose, Id>>, id: Id) {
    || (exists p | p in assignments :: assignments[p] == id)
    || (exists b | b in overrides :: exists p | p in overrides[b] :: overrides[b][p] == id)
  }

  predicate ModelInUse(db: Db, id: Id) {
    InUse(db.assignments, db.overrides, id)
  }

  function DeleteModel(db: Db, id: Id): (r: Outcome)
    ensures MovesBy(db, r, db.boxes.Keys)
  {
    if ModelInUse(db, id) then (db, Refused(StillInUse)) else DropModel(db, id)
  }

  /** The write half of DeleteModel, which runs after the in-use read and outside its snapshot. */
  function DropModel(db: Db, id: Id): (r: Outcome)
    ensures MovesBy(db, r, db.boxes.Keys)
  {
    if id !in db.models then (db, Missing)
    else (BumpAll(db.(models := db.models - {id})), Done)
  }

  // --- the once-only and every-open seeds ---

  function SeedModels(db: Db, seeds: seq<SeedModel>): (r: Outcome)
    ensures MovesBy(db, r, db.boxes.Keys)
    ensures r.0.models == db.models || r.0.models == SeedPass(db.models, seeds)
  {
    if SeedChanges(db.models, seeds) then (BumpAll(db.(models := SeedPass(db.models, seeds))), Done) else (db, Missing)
  }

  /** A factory default that is neither answered already nor impossible to honour. */
  predicate PendingAssignment(db: Db, want: (Purpose, Id)) {
    && want.0 !in db.assignments
    && want.1 in db.models && db.models[want.1].purpose == want.0 && db.models[want.1].pin.digest != ""
  }

  predicate NonePending(db: Db, wants: seq<(Purpose, Id)>) {
    forall w | w in wants :: !PendingAssignment(db, w)
  }

  predicate AllLimited(db: Db, wants: seq<(Purpose, Limits)>) {
    forall w | w in wants :: w.0 in db.limits
  }

  /** INSERT ... ON CONFLICT DO NOTHING for each pending default, in order. */
  function FillAssignments(db: Db, wants: seq<(Purpose, Id)>, out: map<Purpose, Id>): map<Purpose, Id> {
    if wants == [] then out
    else
      var w := wants[0];
      FillAssignments(db, wants[1..], if PendingAssignment(db, w) && w.0 !in out then out[w.0 := w.1] else out)
  }

  function SeedAssignments(db: Db, wants: seq<(Purpose, Id)>): (r: Outcome)
    ensures MovesBy(db, r, if NonePending(db, wants) then {} else db.boxes.Keys)
    ensures r.0.models == db.models && r.0.overrides == db.overrides
    ensures r.0.assignments == db.assignments || r.0.assignments == FillAssignments(db, wants, db.assignments)
  {
    if db.assignmentsSeeded then (db, Missing)
    else if NonePending(db, wants) then (db.(assignmentsSeeded := true), Done)
    else PutSeedAssignments(db, wants)
  }

  function PutSeedAssignments(db: Db, wants: seq<(Purpose, Id)>): (r: Outcome)
    ensures MovesBy(db, r, db.boxes.Keys) && r.1.Done?
    ensures r.0.models == db.models && r.0.overrides == db.overrides
    ensures r.0.assignments == FillAssignments(db, wants, db.assignments)
  {
    (BumpAll(db.(assignments := FillAssignments(db, wants, db.assignments), assignmentsSeeded := true)), Done)
  }

  function FillLimits(wants: seq<(Purpose, Limits)>, out: map<Purpose, Limits>): map<Purpose, Limits> {
    if wants == [] then out
    else FillLimits(wants[1..], if wants[0].0 !in out then out[wants[0].0 := wants[0].1] else out)
  }

  function SeedLimits(db: Db, wants: seq<(Purpose, Limits)>): (r: Outcome)
    ensures MovesBy(db, r, if AllLimited(db, wants) then {} else db.boxes.Keys)
  {
    if db.limitsSeeded then (db, Missing)
    else if AllLimited(db, wants) then (db.(limitsSeeded := true), Done)
    else PutSeedLimits(db, wants)
  }

  function PutSeedLimits(db: Db, wants: seq<(Purpose, Limits)>): (r: Outcome)
    ensures MovesBy(db, r, db.boxes.Keys) && r.1.Done?
  {
    (BumpAll(db.(limits := FillLimits(wants, db.limits), limitsSeeded := true)), Done)
  }

  // --- runs ---

  datatype BoxWrite =
    | CreatingBox(id: Id, slug: string, name: string, hostId: string, edition: Option<string>, seed: BoxNarrator)
    | UpdatingBox(id: Id, name: string, hostId: string, edition: Option<string>)
    | SettingBoxOrgs(id: Id, orgIds: seq<Id>)
    | DeletingBox(id: Id)
    | UpdatingNarrator(id: Id, being: Being, newId: Id, now: int)

  datatype OrgWrite =
    | CreatingOrg(id: Id, org: Org)
    | RenamingOrg(id: Id, name: string)
    | SettingOrgLevel(id: Id, level: string)
    | UpsertingStaff(slug: string, being: Being, newId: Id, now: int)
    | SettingOrgStaff(id: Id, staffId: Id, ov: StaffOverride)
    | ClearingOrgStaff(id: Id, staffId: Id)

  datatype PinWrite =
    | SettingAssignment(raw: Option<Purpose>, modelId: Id)
    | ClearingAssignment(purpose: Purpose)
    | SettingOverride(id: Id, raw: Option<Purpose>, modelId: Id)
    | ClearingOverride(id: Id, purpose: Purpose)

  datatype LimitWrite =
    | SettingLimit(raw: Option<Purpose>, l: Limits)
    | ClearingLimit(purpose: Purpose)
    | SettingBoxLimit(id: Id, raw: Option<Purpose>, l: Limits)
    | ClearingBoxLimit(id: Id, purpose: Purpose)

  datatype ModelWrite =
    | CreatingModel(id: Id, form: PinForm)
    | UpdatingModel(id: Id, form: PinForm)
    | SettingFiles(id: Id, files: seq<ModelFile>)
    | SettingMeta(id: Id, learned: Learned, size: int)
    | DeletingModel(id: Id)

  datatype SeedWrite =
    | SeedingModels(seeds: seq<SeedModel>)
    | SeedingAssignments(picks: seq<(Purpose, Id)>)
    | SeedingLimits(ceilings: seq<(Purpose, Limits)>)

  /** The write halves of the operations that check on one read and write in a later transaction. */
  datatype HalfWrite =
    | PuttingRow(id: Id, row: PinRow)
    | PuttingFiles(id: Id, files: seq<ModelFile>)
    | DroppingModel(id: Id)
    | PuttingAssignment(purpose: Purpose, modelId: Id)
    | PuttingOverride(id: Id, purpose: Purpose, modelId: Id)

  datatype Write =
    | OnBox(box: BoxWrite) | OnOrg(org: OrgWrite) | OnPin(pin: PinWrite)
    | OnLimit(limit: LimitWrite) | OnModel(model: ModelWrite) | OnSeed(seed: SeedWrite) | OnHalf(half: HalfWrite)

  /** Box writes leave every shared table alone. */
  function ApplyBox(db: Db, w: BoxWrite): (r: Outcome)
    ensures r.0.models == db.models && r.0.assignments == db.assignments && r.0.limits == db.limits
    ensures r.0.overrides == db.overrides || r.0.overrides == db.overrides - {w.id}
    ensures r.0.assignmentsSeeded == db.assignmentsSeeded
  {
    match w
    case CreatingBox(id, slug, name, hostId, edition, seed) => CreateBox(db, id, slug, name, hostId, edition, seed)
    case UpdatingBox(id, name, hostId, edition) => UpdateBox(db, id, name, hostId, edition)
    case SettingBoxOrgs(id, orgIds) => SetBoxOrgs(db, id, orgIds)
    case DeletingBox(id) => DeleteBox(db, id)
    case UpdatingNarrator(id, being, newId, now) => UpdateBoxNarrator(db, id, being, newId, now)
  }

  /** Organization and staff writes never touch the model tables. */
  function ApplyOrg(db: Db, w: OrgWrite): (r: Outcome)
    ensures r.0.models == db.models && r.0.assignments == db.assignments && r.0.overrides == db.overrides
    ensures r.0.assignmentsSeeded == db.assignmentsSeeded
  {
    match w
    case CreatingOrg(id, org) => CreateOrg(db, id, org)
    case RenamingOrg(id, name) => RenameOrg(db, id, name)
    case SettingOrgLevel(id, level) => SetOrgLevel(db, id, level)
    case UpsertingStaff(slug, being, newId, now) => UpsertStaff(db, slug, being, newId, now)
    case SettingOrgStaff(id, staffId, ov) => SetOrgStaffOverride(db, id, staffId, ov)
    case ClearingOrgStaff(id, staffId) => ClearOrgStaffOverride(db, id, staffId)
  }

  function ApplyPin(db: Db, w: PinWrite): (r: Outcome)
    ensures r.0.models == db.models && r.0.assignmentsSeeded == db.assignmentsSeeded
  {
    match w
    case SettingAssignment(raw, modelId) => SetAssignment(db, raw, modelId)
    case ClearingAssignment(purpose) => ClearAssignment(db, purpose)
    case SettingOverride(id, raw, modelId) => SetBoxModelOverride(db, id, raw, modelId)
    case ClearingOverride(id, purpose) => ClearBoxModelOverride(db, id, purpose)
  }

  /** Limits belong to the slot: no pin, assignment or override moves. */
  function ApplyLimit(db: Db, w: LimitWrite): (r: Outcome)
    ensures r.0.models == db.models && r.0.assignments == db.assignments && r.0.overrides == db.overrides
    ensures r.0.assignmentsSeeded == db.assignmentsSeeded
  {
    match w
    case SettingLimit(raw, l) => SetLimit(db, raw, l)
    case ClearingLimit(purpose) => ClearLimit(db, purpose)
    case SettingBoxLimit(id, raw, l) => SetBoxLimit(db, id, raw, l)
    case ClearingBoxLimit(id, purpose) => ClearBoxLimit(db, id, purpose)
  }

  /** Registry writes never touch the tables that point into the registry. */
  function ApplyModel(db: Db, w: ModelWrite): (r: Outcome)
    ensures r.0.assignments == db.assignments && r.0.overrides == db.overrides
    ensures r.0.assignmentsSeeded == db.assignmentsSeeded
  {
    match w
    case CreatingModel(id, form) => CreateModel(db, id, form)
    case UpdatingModel(id, form) => UpdateModel(db, id, form)
    case SettingFiles(id, files) => SetModelFiles(db, id, files)
    case SettingMeta(id, learned, size) => SetModelMeta(db, id, learned, size)
    case DeletingModel(id) => DeleteModel(db, id)
  }

  function ApplySeed(db: Db, w: SeedWrite): (r: Outcome)
    ensures r.0.overrides == db.overrides
    ensures !w.SeedingModels? ==> r.0.models == db.models
    ensures db.assignmentsSeeded ==> r.0.assignmentsSeeded
    ensures !w.SeedingAssignments? ==> r.0.assignments == db.assignments
  {
    match w
    case SeedingModels(seeds) => SeedModels(db, seeds)
    case SeedingAssignments(picks) => SeedAssignments(db, picks)
    case SeedingLimits(ceilings) => SeedLimits(db, ceilings)
  }

  function ApplyHalf(db: Db, h: HalfWrite): (r: Outcome)
    ensures r.0.assignmentsSeeded == db.assignmentsSeeded
  {
    match h
    case PuttingRow(id, row) => PutRowOf(db, id, row)
    case PuttingFiles(id, files) => PutFiles(db, id, files)
    case DroppingModel(id) => DropModel(db, id)
    case PuttingAssignment(purpose, modelId) => PutAssignment(db, purpose, modelId)
    case PuttingOverride(id, purpose, modelId) => PutOverride(db, id, purpose, modelId)
  }

  function Apply(db: Db, w: Write): Outcome {
    match w
    case OnBox(bw) => ApplyBox(db, bw)
    case OnOrg(ow) => ApplyOrg(db, ow)
    case OnPin(pw) => ApplyPin(db, pw)
    case OnLimit(lw) => ApplyLimit(db, lw)
    case OnModel(mw) => ApplyModel(db, mw)
    case OnSeed(sw) => ApplySeed(db, sw)
    case OnHalf(h) => ApplyHalf(db, h)
  }

  /**
    What a run may contain: write halves whenever they land, whatever their checks saw, but minted ids
    are fresh, and a SetModelMeta keeps the size it found
    (ManifestLaws.CreateOrgKeepsManifestExactly and MetaKeepsManifestExactly say what happens otherwise).
   */
  predicate Admissible(db: Db, w: Write) {
    match w
    case OnBox(CreatingBox(id, _, _, _, _, _)) => id !in db.issued
    case OnOrg(CreatingOrg(id, _)) => forall b | b in db.boxOrgs :: id !in db.boxOrgs[b]
    case OnModel(SettingMeta(id, _, size)) => id in db.models ==> db.models[id].pin.size == size
    case _ => true
  }

  function Run(db: Db, ws: seq<Write>): Db
    decreases |ws|
  {
    if ws == [] then db else Run(Apply(db, ws[0]).0, ws[1..])
  }

  predicate AdmissibleRun(db: Db, ws: seq<Write>)
    decreases |ws|
  {
    ws != [] ==> Admissible(db, ws[0]) && AdmissibleRun(Apply(db, ws[0]).0, ws[1..])
  }
}
