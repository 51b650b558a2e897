/**
  What a manifest says, read off the tables: which pin serves a purpose, its columns and files, the limits it
  carries, the organizations and how each sees its staff.
 */
module ManifestMeaning {
  import opened Wrappers
  import opened BoxTables
  import opened BoxManifest
  import opened ManifestLaws
  import opened EffectLaws

  // --- models ---

  /** The cell of a table keyed by box and purpose. */
  function Cell<V>(table: map<Id, map<Purpose, V>>, boxId: Id, p: Purpose): Option<V> {
    if boxId in table && p in table[boxId] then Some(table[boxId][p]) else None
  }

  /** The pin a box gets for a purpose: its own choice if it made one, else the fleet's; "" is no choice. */
  function ChosenPin(db: Db, boxId: Id, p: Purpose): Id {
    var own := Cell(db.overrides, boxId, p);
    if own.Some? && own.value != "" then own.value
    else if p in db.assignments then db.assignments[p] else ""
  }

  lemma ChosenResolves(db: Db, boxId: Id, p: Purpose)
    ensures ResolvedId(RowsOf(db.overrides, boxId), db.assignments, p) ==
            if ChosenPin(db, boxId, p) == "" then None else Some(ChosenPin(db, boxId, p))
  {
  }

  predicate PinThere(db: Db, boxId: Id, p: Purpose) {
    ChosenPin(db, boxId, p) == "" || ChosenPin(db, boxId, p) in db.models
  }

  lemma KnownIsThere(db: Db, boxId: Id, p: Purpose)
    ensures PinKnown(RowsOf(db.overrides, boxId), db.assignments, PinView(db.models), p) <==> PinThere(db, boxId, p)
  {
    ChosenResolves(db, boxId, p);
  }

  /** A build answers a manifest exactly when the box exists and every pin it is to get does. */
  lemma BuildsExactly(db: Db, boxId: Id)
    ensures BuildManifest(db, boxId).Success? <==> boxId in db.boxes && forall p :: PinThere(db, boxId, p)
    ensures BuildManifest(db, boxId) == Failure(NoSuchBox) <==> boxId !in db.boxes
  {
    forall p ensures
      PinKnown(RowsOf(db.overrides, boxId), db.assignments, PinView(db.models), p) <==> PinThere(db, boxId, p)
    {
      KnownIsThere(db, boxId, p);
    }
    ResolvedPinsMeaning(RowsOf(db.overrides, boxId), db.assignments, PinView(db.models));
    OnlyDangling(RowsOf(db.overrides, boxId), db.assignments, PinView(db.models), 0, map[]);
  }

  lemma {:induction false} OnlyDangling(overrides: map<Purpose, Id>, assignments: map<Purpose, Id>, pins: map<Id, Pin>,
                                        i: nat, out: map<Purpose, (Id, Pin)>)
    requires i <= |PURPOSE_ORDER|
    ensures var r := ResolvedFrom(overrides, assignments, pins, i, out);
            r.Failure? ==> r.error.DanglingModel? && !PinKnown(overrides, assignments, pins, r.error.purpose)
    decreases |PURPOSE_ORDER| - i
  {
    if i < |PURPOSE_ORDER| {
      var id := ResolvedId(overrides, assignments, PURPOSE_ORDER[i]);
      if id.None? {
        OnlyDangling(overrides, assignments, pins, i + 1, out);
      } else if id.value in pins {
        OnlyDangling(overrides, assignments, pins, i + 1, out[PURPOSE_ORDER[i] := (id.value, pins[id.value])]);
      }
    }
  }

  /** A build that fails names a purpose whose pin is gone. */
  lemma FailureMeans(db: Db, boxId: Id)
    requires boxId in db.boxes && BuildManifest(db, boxId).Failure?
    ensures BuildManifest(db, boxId).error.DanglingModel? && !PinThere(db, boxId, BuildManifest(db, boxId).error.purpose)
  {
    OnlyDangling(RowsOf(db.overrides, boxId), db.assignments, PinView(db.models), 0, map[]);
    KnownIsThere(db, boxId, BuildManifest(db, boxId).error.purpose);
  }

  lemma EntryShown(db: Db, boxId: Id, p: Purpose, m: Manifest)
    requires BuildManifest(db, boxId) == Success(m)
    ensures EntryIn(FootprintOf(db, boxId), p) == if p in m.models then Some(m.models[p]) else None
  {
    ManifestModels(FootprintOf(db, boxId));
    EntryListed(FootprintOf(db, boxId), p);
  }

  lemma EntryOfPin(db: Db, boxId: Id, p: Purpose)
    requires boxId in db.boxes
    ensures var id := ChosenPin(db, boxId, p);
      EntryIn(FootprintOf(db, boxId), p) ==
        if id == "" || id !in db.models then None
        else Some(EntryFor(p, id, db.models[id].pin, ResolvedLimit(RowsOf(db.boxLimits, boxId), db.limits, p)))
  {
    ChosenResolves(db, boxId, p);
  }

  /** An entry names the chosen pin and shows its stored columns. */
  lemma EntryMeans(db: Db, boxId: Id, p: Purpose, m: Manifest)
    requires BuildManifest(db, boxId) == Success(m)
    ensures p in m.models <==> ChosenPin(db, boxId, p) != ""
    ensures p in m.models ==>
      && m.models[p].id == ChosenPin(db, boxId, p) && m.models[p].id in db.models
      && var shown, stored := m.models[p].pin, db.models[m.models[p].id].pin;
         shown == stored.(files := shown.files)
  {
    BuildsExactly(db, boxId);
    assert PinThere(db, boxId, p);
    EntryShown(db, boxId, p, m);
    EntryOfPin(db, boxId, p);
  }

  /**
    Its files are the stored ones, in order, with their names and sizes. A digest the store has is shipped as it
    is; one it lacks is filled from the pin exactly for the anchor, and stays empty for every other file.
   */
  lemma FilesMean(db: Db, boxId: Id, p: Purpose, m: Manifest, i: nat)
    requires BuildManifest(db, boxId) == Success(m) && p in m.models
    ensures m.models[p].id in db.models
    ensures var shown, stored := m.models[p].pin.files, db.models[m.models[p].id].pin.files;
      |shown| == |stored| && (i < |shown| ==> shown[i].file == stored[i].file && shown[i].size == stored[i].size)
    ensures var shown, pin := m.models[p].pin.files, db.models[m.models[p].id].pin;
      i < |shown| && i < |pin.files| ==>
        && (pin.files[i].digest != "" ==> shown[i].digest == pin.files[i].digest)
        && (pin.files[i].digest == "" && pin.files[i].file == pin.file ==> shown[i].digest == pin.digest)
        && (pin.files[i].digest == "" && pin.files[i].file != pin.file ==> shown[i].digest == "")
  {
    EntryMeans(db, boxId, p, m);
    EntryShown(db, boxId, p, m);
    EntryOfPin(db, boxId, p);
  }

  /** Only the three roles that talk carry limits, and of those only what is positive: the box's own, else the fleet's. */
  lemma LimitsMean(db: Db, boxId: Id, p: Purpose, m: Manifest)
    requires BuildManifest(db, boxId) == Success(m) && p in m.models
    ensures var own := Cell(db.boxLimits, boxId, p);
      var tokens := if own.Some? then own.value.maxTokens else if p in db.limits then db.limits[p].maxTokens else 0;
      var seconds := if own.Some? then own.value.timeoutSeconds else if p in db.limits then db.limits[p].timeoutSeconds else 0;
      var shown := m.models[p].limits;
      && (shown.Some? <==> p in {Persona, Worker, Narrator} && (tokens > 0 || seconds > 0))
      && (shown.Some? ==> shown.value.maxTokens == (if tokens > 0 then Some(tokens) else None))
      && (shown.Some? ==> shown.value.timeoutSeconds == (if seconds > 0 then Some(seconds) else None))
  {
    EntryShown(db, boxId, p, m);
    EntryOfPin(db, boxId, p);
  }

  // --- the box, its organizations and their staff ---

  lemma BoxMeans(db: Db, boxId: Id, m: Manifest)
    requires BuildManifest(db, boxId) == Success(m)
    ensures boxId in db.boxes && m.box == db.boxes[boxId]
    ensures m.narrator == if boxId in db.narrators then Some(db.narrators[boxId]) else None
  {
  }

  /** The organizations the box is bound to that exist, each with the whole staff. */
  lemma OrgsMean(db: Db, boxId: Id, m: Manifest, o: Id)
    requires BuildManifest(db, boxId) == Success(m)
    ensures o in m.orgs <==> boxId in db.boxOrgs && o in db.boxOrgs[boxId] && o in db.orgs
    ensures o in m.staff <==> o in m.orgs
    ensures o in m.orgs ==> m.orgs[o] == db.orgs[o] && m.staff[o].Keys == db.staff.Keys
  {
  }

  /** A column of a staff row as an organization sees it: its own value if it has set one. */
  predicate Sees<T(==)>(shown: T, own: Option<T>, canonical: T) {
    shown == match own case Some(value) => value case None => canonical
  }

  lemma StaffShown(db: Db, boxId: Id, m: Manifest, o: Id, slug: string)
    requires BuildManifest(db, boxId) == Success(m) && o in m.staff && slug in m.staff[o]
    ensures slug in db.staff
    ensures m.staff[o][slug] ==
      if o in db.orgStaff && db.staff[slug].id in db.orgStaff[o]
      then Tuned(db.staff[slug], db.orgStaff[o][db.staff[slug].id]) else StaffView(db.staff[slug], "")
  {
  }

  /** An organization that did not tune a member sees the canonical row, and no soul beside its own. */
  lemma UntunedMeans(db: Db, boxId: Id, m: Manifest, o: Id, slug: string)
    requires BuildManifest(db, boxId) == Success(m) && o in m.staff && slug in db.staff
    requires !(o in db.orgStaff && db.staff[slug].id in db.orgStaff[o])
    ensures slug in m.staff[o] && m.staff[o][slug].row == db.staff[slug] && m.staff[o][slug].soulOverride == ""
  {
    OrgsMean(db, boxId, m, o);
    StaffShown(db, boxId, m, o, slug);
  }

  /** One that did sees its own value in each column it set, the canonical one in the others, and its soul beside. */
  lemma TunedMeans(db: Db, boxId: Id, m: Manifest, o: Id, slug: string)
    requires BuildManifest(db, boxId) == Success(m) && o in m.staff && slug in db.staff
    requires o in db.orgStaff && db.staff[slug].id in db.orgStaff[o]
    ensures slug in m.staff[o]
    ensures var v, row, ov := m.staff[o][slug], db.staff[slug], db.orgStaff[o][db.staff[slug].id];
      var shown, p := v.row.being.profile, row.being.profile;
      && Sees(shown.name, ov.name, p.name) && Sees(shown.age, ov.age, p.age) && Sees(shown.voice, ov.voice, p.voice)
      && Sees(shown.bigFive, ov.bigFive, p.bigFive) && Sees(shown.brief, ov.brief, p.brief)
      && Sees(shown.wordBudget, ov.wordBudget, p.wordBudget) && Sees(shown.avatar, ov.avatar, p.avatar)
      && Sees(v.soulOverride, ov.soul, "")
      && v.row == row.(being := row.being.(profile := shown))
  {
    OrgsMean(db, boxId, m, o);
    StaffShown(db, boxId, m, o, slug);
  }
}
