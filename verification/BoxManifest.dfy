/**
  What a box manifest says, as a function of the rows it is assembled from
  (internal/hub/box_manifest.go, with the resolution rules of the stores it reads).
 */
module BoxManifest {
  import opened Wrappers
  import opened BoxTables

  datatype StaffView = StaffView(row: StaffRow, soulOverride: string)

  datatype LimitsView = LimitsView(maxTokens: Option<int>, timeoutSeconds: Option<int>)

  datatype ModelEntry = ModelEntry(id: Id, pin: Pin, limits: Option<LimitsView>)

  datatype Manifest = Manifest(
    box: Box,
    orgs: map<Id, Org>,
    staff: map<Id, map<string, StaffView>>,
    narrator: Option<BoxNarrator>,
    models: map<Purpose, ModelEntry>)

  datatype ManifestError = NoSuchBox | DanglingModel(purpose: Purpose)

  /**
    The part of the database that one box's manifest depends on: the box's own rows, the rows of
    the organizations bound to it, and the tables every box shares.
   */
  datatype Footprint = Footprint(
    box: Box,
    bound: set<Id>,
    orgs: map<Id, Org>,
    staff: map<string, StaffRow>,
    tuning: map<Id, map<Id, StaffOverride>>,
    narrator: Option<BoxNarrator>,
    overrides: map<Purpose, Id>,
    assignments: map<Purpose, Id>,
    pins: map<Id, Pin>,
    boxLimits: map<Purpose, Limits>,
    limits: map<Purpose, Limits>)

  function FootprintOf(db: Db, boxId: Id): Footprint
    requires boxId in db.boxes
  {
    var bound := BoundOrgs(db, boxId);
    Footprint(
      db.boxes[boxId],
      bound,
      map o | o in bound && o in db.orgs :: db.orgs[o],
      db.staff,
      map o | o in bound :: RowsOf(db.orgStaff, o),
      NarratorOf(db, boxId),
      RowsOf(db.overrides, boxId),
      db.assignments,
      PinView(db.models),
      RowsOf(db.boxLimits, boxId),
      db.limits)
  }

  function NarratorOf(db: Db, boxId: Id): Option<BoxNarrator> {
    if boxId in db.narrators then Some(db.narrators[boxId]) else None
  }

  function OrElse<T>(tuned: Option<T>, base: T): T {
    if tuned.Some? then tuned.value else base
  }

  /** override ?? base, column by column; the soul travels beside the canonical one. */
  function Tuned(row: StaffRow, ov: StaffOverride): StaffView {
    var p := row.being.profile;
    var profile := Profile(
      OrElse(ov.name, p.name), OrElse(ov.age, p.age), OrElse(ov.voice, p.voice), OrElse(ov.bigFive, p.bigFive),
      OrElse(ov.brief, p.brief), OrElse(ov.wordBudget, p.wordBudget), OrElse(ov.avatar, p.avatar));
    StaffView(row.(being := row.being.(profile := profile)), OrElse(ov.soul, ""))
  }

  /** The staff roster as one organization sees it, by slug. */
  function Roster(staff: map<string, StaffRow>, tuning: map<Id, StaffOverride>): map<string, StaffView> {
    map slug | slug in staff ::
      if staff[slug].id in tuning then Tuned(staff[slug], tuning[staff[slug].id]) else StaffView(staff[slug], "")
  }

  /** The pin a purpose resolves to: the box's override, else the factory assignment; "" is no pin. */
  function ResolvedId(overrides: map<Purpose, Id>, assignments: map<Purpose, Id>, p: Purpose): Option<Id> {
    if p in overrides && overrides[p] != "" then Some(overrides[p])
    else if p in assignments && assignments[p] != "" then Some(assignments[p])
    else None
  }

  function ResolvedLimit(boxLimits: map<Purpose, Limits>, limits: map<Purpose, Limits>, p: Purpose): Option<Limits> {
    if p in boxLimits then Some(boxLimits[p])
    else if p in limits then Some(limits[p])
    else None
  }

  /** The resolved roster, or the first purpose whose pin is gone. */
  function ResolvedPins(overrides: map<Purpose, Id>, assignments: map<Purpose, Id>, pins: map<Id, Pin>)
    : Result<map<Purpose, (Id, Pin)>, ManifestError>
  {
    ResolvedFrom(overrides, assignments, pins, 0, map[])
  }

  function ResolvedFrom(overrides: map<Purpose, Id>, assignments: map<Purpose, Id>, pins: map<Id, Pin>,
                        i: nat, out: map<Purpose, (Id, Pin)>)
    : Result<map<Purpose, (Id, Pin)>, ManifestError>
    requires i <= |PURPOSE_ORDER|
    decreases |PURPOSE_ORDER| - i
  {
    if i == |PURPOSE_ORDER| then Success(out)
    else
      var p := PURPOSE_ORDER[i];
      var id := ResolvedId(overrides, assignments, p);
      if id.None? then ResolvedFrom(overrides, assignments, pins, i + 1, out)
      else if id.value !in pins then Failure(DanglingModel(p))
      else ResolvedFrom(overrides, assignments, pins, i + 1, out[p := (id.value, pins[id.value])])
  }

  /** An anchor's entry without a digest carries the pin's own. */
  function ManifestFiles(pin: Pin): seq<ModelFile> {
    seq(|pin.files|, i requires 0 <= i < |pin.files| =>
      if pin.files[i].digest == "" && pin.files[i].file == pin.file && pin.digest != ""
      then pin.files[i].(digest := pin.digest)
      else pin.files[i])
  }

  /** Only the positive fields appear; a limit with none is omitted. */
  function ManifestLimits(limit: Option<Limits>): Option<LimitsView> {
    if limit.None? || (limit.value.maxTokens <= 0 && limit.value.timeoutSeconds <= 0) then None
    else Some(LimitsView(
      if limit.value.maxTokens > 0 then Some(limit.value.maxTokens) else None,
      if limit.value.timeoutSeconds > 0 then Some(limit.value.timeoutSeconds) else None))
  }

  function EntryFor(p: Purpose, id: Id, pin: Pin, limit: Option<Limits>): ModelEntry {
    ModelEntry(id, pin.(files := ManifestFiles(pin)), if Generative(p) then ManifestLimits(limit) else None)
  }

  function ManifestOf(f: Footprint): Result<Manifest, ManifestError> {
    var resolved := ResolvedPins(f.overrides, f.assignments, f.pins);
    if resolved.Failure? then Failure(resolved.error)
    else Success(Manifest(
      f.box,
      f.orgs,
      map o | o in f.orgs && o in f.tuning :: Roster(f.staff, f.tuning[o]),
      f.narrator,
      map p | p in resolved.value ::
        EntryFor(p, resolved.value[p].0, resolved.value[p].1, ResolvedLimit(f.boxLimits, f.limits, p))))
  }

  /** The manifest an undisturbed build answers. */
  function BuildManifest(db: Db, boxId: Id): Result<Manifest, ManifestError> {
    if boxId in db.boxes then ManifestOf(FootprintOf(db, boxId)) else Failure(NoSuchBox)
  }
}
