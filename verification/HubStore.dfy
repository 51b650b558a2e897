/**
  The hub's store and the box sync handler, step by step. The database is one field: a transaction
  works on a copy and commits by assigning it, so dropping the copy is a rollback. Between the reads
  of a manifest build, and between a check and the write it guards, other writers may run any
  admissible sequence of writes.
 */
module HubStore {
  import opened Wrappers
  import opened BoxTables
  import opened BoxManifest
  import opened BoxCoherence
  import opened ManifestLaws
  import opened SeedLaws
  import opened ModelFiles
  import W = BoxWrites

  datatype Answer = NotFound | BadRequest | Unchanged | Fresh(manifest: Manifest) | Failed

  /** The box still stands at the version `d0` gave it. */
  ghost predicate StillAt(d0: Db, db: Db, boxId: Id) {
    boxId in d0.boxes && boxId in db.boxes && db.boxes[boxId].version == d0.boxes[boxId].version
  }

  /** While the version stands still, so does everything the manifest reads. */
  lemma StillAtBack(d0: Db, mid: Db, now: Db, boxId: Id)
    requires ValidDb(d0) && boxId in d0.boxes && Evolves(d0, mid) && Evolves(mid, now)
    requires StillAt(d0, now, boxId)
    ensures StillAt(d0, mid, boxId)
    ensures FootprintOf(mid, boxId) == FootprintOf(d0, boxId) == FootprintOf(now, boxId)
  {
    assert KeepsPace(mid, now, boxId);
    assert KeepsPace(d0, mid, boxId);
  }

  /** One organization's share of a manifest, read for the organizations in `done`. */
  ghost predicate Gathered(d: Db, done: set<Id>, orgs: map<Id, Org>, staff: map<Id, map<string, StaffView>>, o: Id) {
    && (o in orgs <==> o in done && o in d.orgs) && (o in staff <==> o in done && o in d.orgs)
    && (o in orgs ==> orgs[o] == d.orgs[o])
    && (o in staff ==> staff[o] == Roster(d.staff, RowsOf(d.orgStaff, o)))
  }

  /** One more organization taken in, or passed over because it is gone. */
  lemma GatheredNext(d: Db, done: set<Id>, orgs: map<Id, Org>, staff: map<Id, map<string, StaffView>>, o: Id,
                     done': set<Id>, orgs': map<Id, Org>, staff': map<Id, map<string, StaffView>>)
    requires forall x :: Gathered(d, done, orgs, staff, x)
    requires done' == done + {o}
    requires orgs' == if o in d.orgs then orgs[o := d.orgs[o]] else orgs
    requires staff' == if o in d.orgs then staff[o := Roster(d.staff, RowsOf(d.orgStaff, o))] else staff
    ensures forall x :: Gathered(d, done', orgs', staff', x)
  {
    forall x ensures Gathered(d, done', orgs', staff', x) {
      assert Gathered(d, done, orgs, staff, x);
    }
  }

  /** One purpose's entry of a manifest, filled for the purposes in `done`. */
  ghost predicate FilledAt(resolved: map<Purpose, (Id, Pin)>, limits: map<Purpose, Limits>, done: seq<Purpose>,
                           models: map<Purpose, ModelEntry>, p: Purpose)
  {
    && (p in models <==> p in resolved && p in done)
    && (p in models ==> models[p] == EntryFor(p, resolved[p].0, resolved[p].1, LimitAt(limits, p)))
  }

  lemma AssembledOrgs(d: Db, boxId: Id, orgs: map<Id, Org>, staff: map<Id, map<string, StaffView>>)
    requires boxId in d.boxes && forall o :: Gathered(d, BoundOrgs(d, boxId), orgs, staff, o)
    ensures var f := FootprintOf(d, boxId);
            orgs == f.orgs && staff == map o | o in f.orgs && o in f.tuning :: Roster(f.staff, f.tuning[o])
  {
    var f := FootprintOf(d, boxId);
    forall o
      ensures o in orgs <==> o in f.orgs
      ensures o in orgs ==> orgs[o] == f.orgs[o]
      ensures o in staff <==> o in f.orgs && o in f.tuning
      ensures o in staff ==> staff[o] == Roster(f.staff, f.tuning[o])
    {
      assert Gathered(d, BoundOrgs(d, boxId), orgs, staff, o);
    }
  }

  /** The pieces a build gathers, put together, are the manifest. */
  lemma Assembled(d: Db, boxId: Id, resolved: map<Purpose, (Id, Pin)>, limits: map<Purpose, Limits>, m: Manifest)
    requires boxId in d.boxes && m.box == d.boxes[boxId] && m.narrator == NarratorOf(d, boxId)
    requires forall o :: Gathered(d, BoundOrgs(d, boxId), m.orgs, m.staff, o)
    requires ResolvedPins(RowsOf(d.overrides, boxId), d.assignments, PinView(d.models)) == Success(resolved)
    requires forall p :: LimitAt(limits, p) == ResolvedLimit(RowsOf(d.boxLimits, boxId), d.limits, p)
    requires forall p :: FilledAt(resolved, limits, PURPOSE_ORDER, m.models, p)
    ensures BuildManifest(d, boxId) == Success(m)
  {
    AssembledOrgs(d, boxId, m.orgs, m.staff);
    var n := BuildManifest(d, boxId).value;
    forall p
      ensures p in n.models <==> p in m.models
      ensures p in n.models ==> n.models[p] == m.models[p]
    {
      var j := PurposeIndex(p);
      assert FilledAt(resolved, limits, PURPOSE_ORDER, m.models, p);
    }
    assert n.models == m.models;
  }

  lemma {:induction false} FillAppend(d: Db, wants: seq<(Purpose, Id)>, w: (Purpose, Id), out: map<Purpose, Id>)
    requires W.PendingAssignment(d, w)
    ensures W.FillAssignments(d, wants + [w], out) ==
            var r := W.FillAssignments(d, wants, out); if w.0 in r then r else r[w.0 := w.1]
    decreases |wants|
  {
    if wants != [] {
      var v := wants[0];
      assert (wants + [w])[1..] == wants[1..] + [w];
      FillAppend(d, wants[1..], w, if W.PendingAssignment(d, v) && v.0 !in out then out[v.0 := v.1] else out);
    } else {
      assert wants + [w] == [w] && [w][1..] == [];
    }
  }

  ghost predicate Reaches(d: Db, e: Db) {
    exists ws :: W.AdmissibleRun(d, ws) && e == W.Run(d, ws)
  }

  lemma ReachedBy(d: Db, ws: seq<W.Write>, e: Db)
    requires W.AdmissibleRun(d, ws) && e == W.Run(d, ws)
    ensures Reaches(d, e)
  {
  }

  class Store {
    var db: Db

    constructor (db: Db)
      ensures this.db == db
    {
      this.db := db;
    }

    // --- writes: each commits with the bump it causes, or leaves the database as it was ---

    /** The insert and the narrator seed, as one step. */
    method CreateBox(id: Id, slug: string, name: string, hostId: string, edition: Option<string>, seed: BoxNarrator)
      returns (reply: W.Reply)
      modifies this
      ensures (db, reply) == W.CreateBox(old(db), id, slug, name, hostId, edition, seed)
    {
      if edition.None? {
        return W.Refused(W.BadEdition);
      }
      if exists b | b in db.boxes :: db.boxes[b].slug == slug {
        return W.Refused(W.SlugTaken);
      }
      var tx := db.(issued := db.issued + {id}, boxes := db.boxes[id := Box(slug, name, hostId, edition.value, 1)]);
      if id !in tx.narrators {
        tx := tx.(narrators := tx.narrators[id := seed]);
      }
      db := tx;
      return W.Done;
    }

    method UpdateBox(id: Id, name: string, hostId: string, edition: Option<string>) returns (reply: W.Reply)
      modifies this
      ensures (db, reply) == W.UpdateBox(old(db), id, name, hostId, edition)
    {
      if edition.None? {
        return W.Refused(W.BadEdition);
      }
      if id !in db.boxes {
        return W.Missing;
      }
      var row := db.boxes[id].(name := name, hostId := hostId, edition := edition.value);
      db := W.Bump(db.(boxes := db.boxes[id := row]), {id});
      return W.Done;
    }

    /** Delete the old bindings, bump, insert the new ones; duplicates collapse. */
    method SetBoxOrgs(id: Id, orgIds: seq<Id>) returns (reply: W.Reply)
      modifies this
      ensures (db, reply) == W.SetBoxOrgs(old(db), id, orgIds)
    {
      var tx := W.Bump(db.(boxOrgs := db.boxOrgs[id := {}]), {id});
      var seen: set<Id> := {};
      for i := 0 to |orgIds|
        invariant seen == set o | o in orgIds[..i]
        invariant tx == W.Bump(db.(boxOrgs := db.boxOrgs[id := seen]), {id})
        invariant db == old(db)
      {
        assert orgIds[..i + 1] == orgIds[..i] + [orgIds[i]];
        if orgIds[i] !in seen {
          seen := seen + {orgIds[i]};
          tx := tx.(boxOrgs := tx.boxOrgs[id := tx.boxOrgs[id] + {orgIds[i]}]);
          assert tx.boxOrgs == db.boxOrgs[id := seen];
        }
      }
      assert orgIds[..|orgIds|] == orgIds;
      db := tx;
      return W.Done;
    }

    /** The cascade runs first; a box that turns out to be missing rolls it back. */
    method DeleteBox(id: Id) returns (reply: W.Reply)
      modifies this
      ensures (db, reply) == W.DeleteBox(old(db), id)
    {
      var tx := db;
      tx := tx.(boxOrgs := tx.boxOrgs - {id});
      tx := tx.(narrators := tx.narrators - {id});
      tx := tx.(overrides := tx.overrides - {id});
      if id !in tx.boxes {
        return W.Missing;
      }
      db := tx.(boxes := tx.boxes - {id});
      return W.Done;
    }

    method UpdateBoxNarrator(boxId: Id, being: Being, newId: Id, now: int) returns (reply: W.Reply)
      modifies this
      ensures (db, reply) == W.UpdateBoxNarrator(old(db), boxId, being, newId, now)
    {
      if !W.ValidGender(being.gender) {
        return W.Refused(W.BadGender);
      }
      var tx := db;
      if boxId in tx.narrators {
        tx := tx.(narrators := tx.narrators[boxId := tx.narrators[boxId].(being := being, updatedAt := now)]);
      } else {
        tx := tx.(narrators := tx.narrators[boxId := BoxNarrator(newId, being, now, now)]);
      }
      db := W.Bump(tx, {boxId});
      return W.Done;
    }

    method RenameOrg(id: Id, name: string) returns (reply: W.Reply)
      modifies this
      ensures (db, reply) == W.RenameOrg(old(db), id, name)
    {
      var tx := db;
      if id in tx.orgs {
        tx := tx.(orgs := tx.orgs[id := tx.orgs[id].(name := name)]);
      }
      db := W.BumpForOrg(tx, id);
      return W.Done;
    }

    method SetOrgLevel(id: Id, level: string) returns (reply: W.Reply)
      modifies this
      ensures (db, reply) == W.SetOrgLevel(old(db), id, level)
    {
      var tx := db;
      if id in tx.orgs {
        tx := tx.(orgs := tx.orgs[id := tx.orgs[id].(level := level)]);
      }
      db := W.BumpForOrg(tx, id);
      return W.Done;
    }

    method UpsertStaff(slug: string, being: Being, newId: Id, now: int) returns (reply: W.Reply)
      modifies this
      ensures (db, reply) == W.UpsertStaff(old(db), slug, being, newId, now)
    {
      if !W.ValidStaffSlug(slug) {
        return W.Refused(W.BadSlug);
      }
      if !W.ValidGender(being.gender) {
        return W.Refused(W.BadGender);
      }
      var tx := db;
      if slug in tx.staff {
        tx := tx.(staff := tx.staff[slug := tx.staff[slug].(being := being, updatedAt := now)]);
      } else {
        tx := tx.(staff := tx.staff[slug := StaffRow(newId, being, now, now)]);
      }
      db := W.BumpAll(tx);
      return W.Done;
    }

    method SetOrgStaffOverride(orgId: Id, staffId: Id, ov: StaffOverride) returns (reply: W.Reply)
      modifies this
      ensures (db, reply) == W.SetOrgStaffOverride(old(db), orgId, staffId, ov)
    {
      var tx := db.(orgStaff := PutRow(db.orgStaff, orgId, staffId, ov));
      db := W.BumpForOrg(tx, orgId);
      return W.Done;
    }

    method ClearOrgStaffOverride(orgId: Id, staffId: Id) returns (reply: W.Reply)
      modifies this
      ensures (db, reply) == W.ClearOrgStaffOverride(old(db), orgId, staffId)
    {
      var tx := db.(orgStaff := DropRow(db.orgStaff, orgId, staffId));
      db := W.BumpForOrg(tx, orgId);
      return W.Done;
    }

    /** The checks an assignment and an override share. */
    method CheckPin(purpose: Purpose, modelId: Id) returns (refusal: Option<W.Refusal>)
      ensures refusal == W.PinRefusal(db, purpose, modelId)
    {
      if modelId !in db.models {
        return Some(W.UnknownModel);
      }
      var m := db.models[modelId];
      var serves := false;
      for i := 0 to |m.purposes|
        invariant serves == (purpose in m.purposes[..i])
      {
        assert m.purposes[..i + 1] == m.purposes[..i] + [m.purposes[i]];
        if m.purposes[i] == purpose {
          serves := true;
        }
      }
      assert m.purposes[..|m.purposes|] == m.purposes;
      if !serves {
        return Some(W.PurposeMismatch);
      }
      return if m.pin.digest == "" then Some(W.Unverified) else None;
    }

    /** The pin is read and checked first; the upsert and its bump come later, with other writers in between. */
    method SetAssignment(purpose: Option<Purpose>, modelId: Id) returns (reply: W.Reply, ghost mid: Db)
      requires ValidDb(db)
      modifies this
      ensures Reaches(old(db), mid)
      ensures if W.SetAssignment(old(db), purpose, modelId).1.Done?
              then (db, reply) == W.PutAssignment(mid, purpose.value, modelId)
              else mid == old(db) && (db, reply) == W.SetAssignment(old(db), purpose, modelId)
      ensures RefsExist(mid) ==> (RefsExist(db) <==> !reply.Done? || modelId in mid.models)
    {
      ReachedBy(db, [], db);
      if purpose.None? {
        return W.Refused(W.BadPurpose), db;
      }
      var refusal := CheckPin(purpose.value, modelId);
      if refusal.Some? {
        return W.Refused(refusal.value), db;
      }
      Others();
      mid := db;
      if RefsExist(mid) {
        PutAssignmentKeepsRefsExactly(mid, purpose.value, modelId);
      }
      db := W.BumpAll(db.(assignments := db.assignments[purpose.value := modelId]));
      reply := W.Done;
    }

    method ClearAssignment(purpose: Purpose) returns (reply: W.Reply)
      modifies this
      ensures (db, reply) == W.ClearAssignment(old(db), purpose)
    {
      if purpose !in db.assignments {
        return W.Missing;
      }
      db := W.BumpAll(db.(assignments := db.assignments - {purpose}));
      return W.Done;
    }

    /** The box and the pin are read first; the upsert and its bump come later, with other writers in between. */
    method SetBoxModelOverride(boxId: Id, purpose: Option<Purpose>, modelId: Id)
      returns (reply: W.Reply, ghost mid: Db)
      requires ValidDb(db)
      modifies this
      ensures Reaches(old(db), mid)
      ensures if W.SetBoxModelOverride(old(db), boxId, purpose, modelId).1.Done?
              then (db, reply) == W.PutOverride(mid, boxId, purpose.value, modelId)
              else mid == old(db) && (db, reply) == W.SetBoxModelOverride(old(db), boxId, purpose, modelId)
      ensures RefsExist(mid) ==> (RefsExist(db) <==> !reply.Done? || modelId in mid.models)
    {
      ReachedBy(db, [], db);
      if purpose.None? {
        return W.Refused(W.BadPurpose), db;
      }
      if boxId !in db.boxes {
        return W.Refused(W.UnknownBox), db;
      }
      var refusal := CheckPin(purpose.value, modelId);
      if refusal.Some? {
        return W.Refused(refusal.value), db;
      }
      Others();
      mid := db;
      if RefsExist(mid) {
        PutOverrideKeepsRefsExactly(mid, boxId, purpose.value, modelId);
      }
      db := W.Bump(db.(overrides := PutRow(db.overrides, boxId, purpose.value, modelId)), {boxId});
      reply := W.Done;
    }

    method ClearBoxModelOverride(boxId: Id, purpose: Purpose) returns (reply: W.Reply)
      modifies this
      ensures (db, reply) == W.ClearBoxModelOverride(old(db), boxId, purpose)
    {
      if purpose !in RowsOf(db.overrides, boxId) {
        return W.Missing;
      }
      db := W.Bump(db.(overrides := DropRow(db.overrides, boxId, purpose)), {boxId});
      return W.Done;
    }

    method SetLimit(purpose: Option<Purpose>, l: Limits) returns (reply: W.Reply)
      modifies this
      ensures (db, reply) == W.SetLimit(old(db), purpose, l)
    {
      if purpose.None? {
        return W.Refused(W.BadPurpose);
      }
      if !W.ValidLimits(l) {
        return W.Refused(W.BadLimits);
      }
      db := W.BumpAll(db.(limits := db.limits[purpose.value := l]));
      return W.Done;
    }

    method ClearLimit(purpose: Purpose) returns (reply: W.Reply)
      modifies this
      ensures (db, reply) == W.ClearLimit(old(db), purpose)
    {
      if purpose !in db.limits {
        return W.Missing;
      }
      db := W.BumpAll(db.(limits := db.limits - {purpose}));
      return W.Done;
    }

    method SetBoxLimit(boxId: Id, purpose: Option<Purpose>, l: Limits) returns (reply: W.Reply)
      modifies this
      ensures (db, reply) == W.SetBoxLimit(old(db), boxId, purpose, l)
    {
      if purpose.None? {
        return W.Refused(W.BadPurpose);
      }
      if !W.ValidLimits(l) {
        return W.Refused(W.BadLimits);
      }
      if boxId !in db.boxes {
        return W.Refused(W.UnknownBox);
      }
      db := W.Bump(db.(boxLimits := PutRow(db.boxLimits, boxId, purpose.value, l)), {boxId});
      return W.Done;
    }

    method ClearBoxLimit(boxId: Id, purpose: Purpose) returns (reply: W.Reply)
      modifies this
      ensures (db, reply) == W.ClearBoxLimit(old(db), boxId, purpose)
    {
      if purpose !in RowsOf(db.boxLimits, boxId) {
        return W.Missing;
      }
      db := W.Bump(db.(boxLimits := DropRow(db.boxLimits, boxId, purpose)), {boxId});
      return W.Done;
    }

    method CreateModel(id: Id, f: W.PinForm) returns (reply: W.Reply)
      modifies this
      ensures (db, reply) == W.CreateModel(old(db), id, f)
    {
      if f.purposes.None? || |f.purposes.value| == 0 {
        return W.Refused(W.BadPurpose);
      }
      if f.quant.None? {
        return W.Refused(W.BadQuant);
      }
      if id in db.models {
        return W.Refused(W.IdTaken);
      }
      var pin := Pin(f.source, f.quant.value, f.file, f.digest, f.licence, "", 0, []);
      var row := Model(f.org, f.purposes.value[0], f.purposes.value, pin, Learned("", "", "", "", 0, 0, false));
      db := W.BumpAll(db.(models := db.models[id := row]));
      return W.Done;
    }

    /** The pin is read and the anchor checked first; the UPDATE and its bump come later, with other writers in between. */
    method UpdateModel(id: Id, f: W.PinForm) returns (reply: W.Reply, ghost mid: Db)
      requires ValidDb(db)
      modifies this
      ensures Reaches(old(db), mid)
      ensures if W.UpdateModel(old(db), id, f).1.Done? then (db, reply) == W.PutRowOf(mid, id, W.Parsed(f).value)
              else mid == old(db) && (db, reply) == W.UpdateModel(old(db), id, f)
      ensures PinsValid(mid.models) ==>
                (PinsValid(db.models) <==> !reply.Done? || ValidFiles(f.file, mid.models[id].pin.files))
    {
      ReachedBy(db, [], db);
      if f.purposes.None? || |f.purposes.value| == 0 {
        return W.Refused(W.BadPurpose), db;
      }
      if f.quant.None? {
        return W.Refused(W.BadQuant), db;
      }
      if id !in db.models {
        return W.Missing, db;
      }
      var ok := ValidateModelFiles(f.file, db.models[id].pin.files);
      if !ok {
        return W.Refused(W.BadFiles), db;
      }
      ghost var row := W.Parsed(f).value;
      Others();
      mid := db;
      if PinsValid(mid.models) {
        PutRowKeepsValidExactly(mid, id, row);
      }
      if id !in db.models {
        return W.Missing, mid;
      }
      var was := db.models[id];
      var pin := was.pin.(source := f.source, quant := f.quant.value, file := f.file, digest := f.digest,
                          licence := f.licence);
      var m := was.(org := f.org, purpose := f.purposes.value[0], purposes := f.purposes.value, pin := pin);
      assert m == W.WithRow(was, row);
      db := W.BumpAll(db.(models := db.models[id := m]));
      reply := W.Done;
    }

    /** The same for the file list, checked against the anchor read first. */
    method SetModelFiles(id: Id, files: seq<ModelFile>) returns (reply: W.Reply, ghost mid: Db)
      requires ValidDb(db)
      modifies this
      ensures Reaches(old(db), mid)
      ensures if W.SetModelFiles(old(db), id, files).1.Done? then (db, reply) == W.PutFiles(mid, id, files)
              else mid == old(db) && (db, reply) == W.SetModelFiles(old(db), id, files)
      ensures PinsValid(mid.models) ==>
                (PinsValid(db.models) <==> !reply.Done? || ValidFiles(mid.models[id].pin.file, files))
    {
      ReachedBy(db, [], db);
      if id !in db.models {
        return W.Missing, db;
      }
      var ok := ValidateModelFiles(db.models[id].pin.file, files);
      if !ok {
        return W.Refused(W.BadFiles), db;
      }
      Others();
      mid := db;
      if PinsValid(mid.models) {
        PutFilesKeepsValidExactly(mid, id, files);
      }
      if id !in db.models {
        return W.Missing, mid;
      }
      var row := db.models[id].(pin := db.models[id].pin.(files := files));
      db := W.BumpAll(db.(models := db.models[id := row]));
      reply := W.Done;
    }

    method SetModelMeta(id: Id, learned: Learned, size: int) returns (reply: W.Reply)
      modifies this
      ensures (db, reply) == W.SetModelMeta(old(db), id, learned, size)
    {
      if id !in db.models {
        return W.Missing;
      }
      var row := db.models[id].(learned := learned, pin := db.models[id].pin.(size := size));
      db := db.(models := db.models[id := row]);
      return W.Done;
    }

    /** The in-use read first; the delete and its bump later, with other writers in between. */
    method DeleteModel(id: Id) returns (reply: W.Reply, ghost mid: Db)
      requires ValidDb(db)
      modifies this
      ensures Reaches(old(db), mid)
      ensures if W.ModelInUse(old(db), id) then db == mid == old(db) && reply == W.Refused(W.StillInUse)
              else (db, reply) == W.DropModel(mid, id)
      ensures RefsExist(mid) ==> (RefsExist(db) <==> !reply.Done? || !W.ModelInUse(mid, id))
    {
      ReachedBy(db, [], db);
      if W.ModelInUse(db, id) {
        return W.Refused(W.StillInUse), db;
      }
      Others();
      mid := db;
      if RefsExist(mid) {
        DropModelKeepsRefsExactly(mid, id);
      }
      if id !in db.models {
        return W.Missing, mid;
      }
      db := W.BumpAll(db.(models := db.models - {id}));
      reply := W.Done;
    }

    // --- seeds ---

    /** The drift check of one seed against its stored row. */
    method CheckDrift(m: Model, s: SeedModel) returns (drifted: bool)
      ensures drifted == Drifted(m, s)
    {
      var merged := MergeSeedFiles(m.pin.files, s.pin.files);
      var same := SameFileList(m.pin.files, merged);
      return
        || m.org != s.org || m.pin.source != s.pin.source || m.pin.quant != s.pin.quant || m.pin.file != s.pin.file
        || m.pin.licence != s.pin.licence || m.purpose != s.purpose || !SamePurposes(m.purposes, SeedPurposes(s))
        || m.learned != s.learned || m.pin.engine != s.pin.engine || m.pin.size != s.pin.size || !same
        || (m.pin.digest == "" && s.pin.digest != "");
    }

    method EnsureSeedModels(seeds: seq<SeedModel>) returns (reply: W.Reply)
      modifies this
      ensures (db, reply) == W.SeedModels(old(db), seeds)
    {
      var models := db.models;
      var changed := false;
      for i := 0 to |seeds|
        invariant db == old(db)
        invariant SeedPass(models, seeds[i..]) == SeedPass(db.models, seeds)
        invariant SeedChanges(db.models, seeds) <==> changed || SeedChanges(models, seeds[i..])
      {
        var s := seeds[i];
        assert seeds[i..][0] == s && seeds[i..][1..] == seeds[i + 1..];
        if s.id !in models {
          models := models[s.id := Model(s.org, s.purpose, SeedPurposes(s), s.pin, s.learned)];
          changed := true;
        } else {
          var m := models[s.id];
          var drifted := CheckDrift(m, s);
          if drifted {
            var digest := if m.pin.digest == "" then s.pin.digest else m.pin.digest;
            var files := MergeSeedFiles(m.pin.files, s.pin.files);
            models := models[s.id := Model(s.org, s.purpose, SeedPurposes(s),
                                           s.pin.(digest := digest, files := files), s.learned)];
            changed := true;
          }
        }
      }
      if changed {
        db := W.BumpAll(db.(models := models));
        return W.Done;
      }
      return W.Missing;
    }

    /** The defaults not answered yet, read before the transaction that writes them. */
    method PendingFactoryAssignments(wants: seq<(Purpose, Id)>) returns (pending: seq<(Purpose, Id)>)
      ensures forall w :: w in pending <==> w in wants && W.PendingAssignment(db, w)
      ensures W.FillAssignments(db, pending, db.assignments) == W.FillAssignments(db, wants, db.assignments)
    {
      pending := [];
      for i := 0 to |wants|
        invariant forall w :: w in pending <==> w in wants[..i] && W.PendingAssignment(db, w)
        invariant W.FillAssignments(db, wants[i..], W.FillAssignments(db, pending, db.assignments))
               == W.FillAssignments(db, wants, db.assignments)
      {
        var w := wants[i];
        assert wants[..i + 1] == wants[..i] + [w] && wants[i..][0] == w && wants[i..][1..] == wants[i + 1..];
        if W.PendingAssignment(db, w) {
          FillAppend(db, pending, w, db.assignments);
          pending := pending + [w];
        }
      }
      assert wants[..|wants|] == wants;
    }

    method EnsureSeedAssignments(wants: seq<(Purpose, Id)>) returns (reply: W.Reply)
      modifies this
      ensures (db, reply) == W.SeedAssignments(old(db), wants)
    {
      if db.assignmentsSeeded {
        return W.Missing;
      }
      var pending := PendingFactoryAssignments(wants);
      if |pending| == 0 {
        db := db.(assignmentsSeeded := true);
        return W.Done;
      }
      var rows := db.assignments;
      for i := 0 to |pending|
        invariant db == old(db)
        invariant W.FillAssignments(db, pending[i..], rows) == W.FillAssignments(db, pending, db.assignments)
      {
        var w := pending[i];
        assert w in pending && pending[i..][0] == w && pending[i..][1..] == pending[i + 1..];
        if w.0 !in rows {
          rows := rows[w.0 := w.1];
        }
      }
      assert pending[0] in pending;
      db := W.BumpAll(db.(assignments := rows, assignmentsSeeded := true));
      return W.Done;
    }

    // --- reads that other writers may interleave with ---

    /** Any number of other writers' transactions. */
    method Others()
      requires ValidDb(db)
      modifies this
      ensures ValidDb(db) && Evolves(old(db), db)
      ensures Reaches(old(db), db)
    {
      var ws: seq<W.Write> := *;
      if !W.AdmissibleRun(db, ws) {
        ws := [];
      }
      RunEvolves(db, ws);
      ReachedBy(db, ws, W.Run(db, ws));
      db := W.Run(db, ws);
    }

    /** A read that may be preceded by other writers: what still stands was there before, too. */
    method Interfere(ghost d0: Db, boxId: Id)
      requires ValidDb(d0) && ValidDb(db) && boxId in d0.boxes && Evolves(d0, db)
      modifies this
      ensures ValidDb(db) && Evolves(d0, db)
      ensures StillAt(d0, db, boxId) ==>
                StillAt(d0, old(db), boxId) && FootprintOf(db, boxId) == FootprintOf(d0, boxId)
    {
      Others();
      EvolvesTransitive(d0, old(db), db);
      if StillAt(d0, db, boxId) {
        StillAtBack(d0, old(db), db, boxId);
      }
    }

    /** GetModel: one query, with other writers before it. */
    method GetPin(ghost d0: Db, boxId: Id, modelId: Id) returns (pin: Option<Pin>)
      requires ValidDb(d0) && ValidDb(db) && boxId in d0.boxes && Evolves(d0, db)
      modifies this
      ensures ValidDb(db) && Evolves(d0, db)
      ensures StillAt(d0, db, boxId) ==> StillAt(d0, old(db), boxId)
      ensures StillAt(d0, db, boxId) ==>
                pin == if modelId in d0.models then Some(d0.models[modelId].pin) else None
    {
      Interfere(d0, boxId);
      pin := if modelId in db.models then Some(db.models[modelId].pin) else None;
      if StillAt(d0, db, boxId) {
        assert PinView(db.models) == FootprintOf(db, boxId).pins == PinView(d0.models);
        assert modelId in PinView(db.models) <==> modelId in PinView(d0.models);
      }
    }

    /** Overrides, then assignments, then one pin per purpose: each its own query. */
    method ResolvedModels(ghost d0: Db, boxId: Id) returns (r: Result<map<Purpose, (Id, Pin)>, ManifestError>)
      requires ValidDb(d0) && ValidDb(db) && boxId in d0.boxes && Evolves(d0, db)
      modifies this
      ensures ValidDb(db) && Evolves(d0, db)
      ensures StillAt(d0, db, boxId) ==> StillAt(d0, old(db), boxId)
      ensures StillAt(d0, db, boxId) ==>
                r == ResolvedPins(RowsOf(d0.overrides, boxId), d0.assignments, PinView(d0.models))
    {
      ghost var ov, asg, pins := RowsOf(d0.overrides, boxId), d0.assignments, PinView(d0.models);
      Interfere(d0, boxId);
      var overrideFor := RowsOf(db.overrides, boxId);
      assert StillAt(d0, db, boxId) ==> overrideFor == FootprintOf(db, boxId).overrides == ov;
      Interfere(d0, boxId);
      var assignmentFor := db.assignments;
      assert StillAt(d0, db, boxId) ==> assignmentFor == FootprintOf(db, boxId).assignments == asg;
      r := ResolveEach(d0, boxId, overrideFor, assignmentFor);
    }

    /** The walk of the canonical purpose order. */
    method ResolveEach(ghost d0: Db, boxId: Id, overrideFor: map<Purpose, Id>, assignmentFor: map<Purpose, Id>)
      returns (r: Result<map<Purpose, (Id, Pin)>, ManifestError>)
      requires ValidDb(d0) && ValidDb(db) && boxId in d0.boxes && Evolves(d0, db)
      modifies this
      ensures ValidDb(db) && Evolves(d0, db)
      ensures StillAt(d0, db, boxId) ==> StillAt(d0, old(db), boxId)
      ensures StillAt(d0, db, boxId) ==> r == ResolvedPins(overrideFor, assignmentFor, PinView(d0.models))
    {
      ghost var pins := PinView(d0.models);
      var out: map<Purpose, (Id, Pin)> := map[];
      for i := 0 to |PURPOSE_ORDER|
        invariant ValidDb(db) && Evolves(d0, db)
        invariant StillAt(d0, db, boxId) ==> StillAt(d0, old(db), boxId)
        invariant StillAt(d0, db, boxId) ==>
                    ResolvedPins(overrideFor, assignmentFor, pins) == ResolvedFrom(overrideFor, assignmentFor, pins, i, out)
      {
        var p := PURPOSE_ORDER[i];
        var modelId := if p in overrideFor then overrideFor[p] else "";
        if modelId == "" {
          modelId := if p in assignmentFor then assignmentFor[p] else "";
        }
        assert ResolvedId(overrideFor, assignmentFor, p) == if modelId == "" then None else Some(modelId);
        if modelId != "" {
          var pin := GetPin(d0, boxId, modelId);
          if pin.None? {
            return Failure(DanglingModel(p));
          }
          out := out[p := (modelId, pin.value)];
        }
      }
      return Success(out);
    }

    /** OrgById, for an organization the box is bound to. */
    method GetOrg(ghost d0: Db, boxId: Id, o: Id) returns (org: Option<Org>)
      requires ValidDb(d0) && ValidDb(db) && boxId in d0.boxes && Evolves(d0, db)
      modifies this
      ensures ValidDb(db) && Evolves(d0, db)
      ensures StillAt(d0, db, boxId) ==> StillAt(d0, old(db), boxId)
      ensures StillAt(d0, db, boxId) && o in BoundOrgs(d0, boxId) ==>
                org == if o in d0.orgs then Some(d0.orgs[o]) else None
    {
      Interfere(d0, boxId);
      org := if o in db.orgs then Some(db.orgs[o]) else None;
      if StillAt(d0, db, boxId) && o in BoundOrgs(d0, boxId) {
        var f, g := FootprintOf(d0, boxId), FootprintOf(db, boxId);
        assert o in g.bound && (o in f.orgs <==> o in d0.orgs) && (o in g.orgs <==> o in db.orgs);
      }
    }

    /** StaffForOrg: the roster of an organization the box is bound to. */
    method GetRoster(ghost d0: Db, boxId: Id, o: Id) returns (roster: map<string, StaffView>)
      requires ValidDb(d0) && ValidDb(db) && boxId in d0.boxes && Evolves(d0, db)
      modifies this
      ensures ValidDb(db) && Evolves(d0, db)
      ensures StillAt(d0, db, boxId) ==> StillAt(d0, old(db), boxId)
      ensures StillAt(d0, db, boxId) && o in BoundOrgs(d0, boxId) ==>
                roster == Roster(d0.staff, RowsOf(d0.orgStaff, o))
    {
      Interfere(d0, boxId);
      roster := Roster(db.staff, RowsOf(db.orgStaff, o));
      if StillAt(d0, db, boxId) && o in BoundOrgs(d0, boxId) {
        var f, g := FootprintOf(d0, boxId), FootprintOf(db, boxId);
        assert o in g.bound && f.tuning[o] == RowsOf(d0.orgStaff, o) && g.tuning[o] == RowsOf(db.orgStaff, o);
      }
    }

    /** The bound organizations and their rosters; a binding whose organization is gone is skipped. */
    method ReadOrgs(ghost d0: Db, boxId: Id, orgIds: set<Id>)
      returns (orgs: map<Id, Org>, staff: map<Id, map<string, StaffView>>)
      requires ValidDb(d0) && ValidDb(db) && boxId in d0.boxes && Evolves(d0, db)
      requires StillAt(d0, db, boxId) ==> orgIds == BoundOrgs(d0, boxId)
      modifies this
      ensures ValidDb(db) && Evolves(d0, db)
      ensures StillAt(d0, db, boxId) ==> StillAt(d0, old(db), boxId)
      ensures StillAt(d0, db, boxId) ==> forall o :: Gathered(d0, orgIds, orgs, staff, o)
    {
      orgs, staff := map[], map[];
      var pending := orgIds;
      while pending != {}
        invariant pending <= orgIds
        invariant ValidDb(db) && Evolves(d0, db)
        invariant StillAt(d0, db, boxId) ==> StillAt(d0, old(db), boxId)
        invariant StillAt(d0, db, boxId) ==> forall o :: Gathered(d0, orgIds - pending, orgs, staff, o)
        decreases |pending|
      {
        var o :| o in pending;
        ghost var done, wasOrgs, wasStaff := orgIds - pending, orgs, staff;
        pending := pending - {o};
        var org := GetOrg(d0, boxId, o);
        if org.Some? {
          var roster := GetRoster(d0, boxId, o);
          orgs, staff := orgs[o := org.value], staff[o := roster];
        }
        if StillAt(d0, db, boxId) {
          GatheredNext(d0, done, wasOrgs, wasStaff, o, orgIds - pending, orgs, staff);
        }
      }
      assert orgIds - pending == orgIds;
    }

    /** Box limits, then factory limits, then the walk: override ?? factory, purpose by purpose. */
    method ResolvedLimits(ghost d0: Db, boxId: Id) returns (r: map<Purpose, Limits>)
      requires ValidDb(d0) && ValidDb(db) && boxId in d0.boxes && Evolves(d0, db)
      modifies this
      ensures ValidDb(db) && Evolves(d0, db)
      ensures StillAt(d0, db, boxId) ==> StillAt(d0, old(db), boxId)
      ensures StillAt(d0, db, boxId) ==>
                forall p :: LimitAt(r, p) == ResolvedLimit(RowsOf(d0.boxLimits, boxId), d0.limits, p)
    {
      Interfere(d0, boxId);
      var boxFor := RowsOf(db.boxLimits, boxId);
      assert StillAt(d0, db, boxId) ==> boxFor == FootprintOf(db, boxId).boxLimits == RowsOf(d0.boxLimits, boxId);
      Interfere(d0, boxId);
      var factoryFor := db.limits;
      assert StillAt(d0, db, boxId) ==> factoryFor == FootprintOf(db, boxId).limits == d0.limits;
      r := LimitWalk(boxFor, factoryFor);
    }

    /**
      The manifest of one box, its version read first and every other row later, with other writers
      in between. What comes out is coherent even when torn: if any row moved, the version moved too.
     */
    method BuildBoxManifest(boxId: Id) returns (r: Result<Manifest, ManifestError>)
      requires ValidDb(db)
      modifies this
      ensures ValidDb(db) && Evolves(old(db), db)
      ensures r.Success? ==> Coherent(db, boxId, r.value)
      ensures boxId !in old(db).boxes ==> r == Failure(NoSuchBox)
      ensures BuildManifest(old(db), boxId).Success? && StillAt(old(db), db, boxId) ==> r.Success?
    {
      ghost var d0 := db;
      EvolvesReflexive(d0);
      if boxId !in db.boxes {
        return Failure(NoSuchBox);
      }
      var box := db.boxes[boxId];
      Interfere(d0, boxId);
      var orgIds := BoundOrgs(db, boxId);
      assert StillAt(d0, db, boxId) ==> orgIds == FootprintOf(db, boxId).bound;
      var orgs, staff := ReadOrgs(d0, boxId, orgIds);
      Interfere(d0, boxId);
      var narrator := NarratorOf(db, boxId);
      assert StillAt(d0, db, boxId) ==> narrator == FootprintOf(db, boxId).narrator;
      var resolved := ResolvedModels(d0, boxId);
      if resolved.Failure? {
        return Failure(resolved.error);
      }
      var limits := ResolvedLimits(d0, boxId);
      var models := FillEntries(resolved.value, limits);
      r := Success(Manifest(box, orgs, staff, narrator, models));
      if StillAt(d0, db, boxId) {
        StillAtBack(d0, d0, db, boxId);
        Assembled(d0, boxId, resolved.value, limits, r.value);
      }
      assert boxId in db.boxes ==> KeepsPace(d0, db, boxId);
    }

    /** The sync-down endpoint past its token check: 404, 400, "not modified", or a fresh manifest. */
    method HandleBoxChanges(boxId: Id, since: int) returns (a: Answer)
      requires ValidDb(db)
      modifies this
      ensures ValidDb(db) && Evolves(old(db), db)
      ensures a.NotFound? <==> boxId !in old(db).boxes
      ensures a.BadRequest? <==> boxId in old(db).boxes && since < 0
      ensures a.Unchanged? <==> since >= 0 && NotModified(old(db), boxId, since)
      ensures a.Unchanged? ==> forall held :: Coherent(old(db), boxId, held) && held.box.version == since ==>
                                              BuildManifest(db, boxId) == Success(held)
      ensures a.Fresh? ==> Coherent(db, boxId, a.manifest)
      ensures BuildManifest(old(db), boxId).Success? && StillAt(old(db), db, boxId) ==> !a.Failed?
    {
      EvolvesReflexive(db);
      if boxId !in db.boxes {
        return NotFound;
      }
      if since < 0 {
        return BadRequest;
      }
      var box := db.boxes[boxId];
      if since >= box.version {
        return Unchanged;
      }
      ghost var d0 := db;
      Interfere(d0, boxId);
      ghost var d1 := db;
      var r := BuildBoxManifest(boxId);
      EvolvesTransitive(d0, d1, db);
      if r.Success? {
        return Fresh(r.value);
      }
      if StillAt(d0, db, boxId) {
        StillAtBack(d0, d1, db, boxId);
      }
      return Failed;
    }

    /**
      A box that keeps polling with the version it holds, in any interleaving with the hub's writers:
      whenever the answer is "not modified", what it holds is what a build would answer at that moment.
     */
    method Sync(boxId: Id, rounds: nat) returns (held: Option<Manifest>, last: Answer)
      requires ValidDb(db)
      modifies this
      ensures ValidDb(db) && Evolves(old(db), db)
      ensures held.Some? ==> Coherent(db, boxId, held.value)
      ensures last.Unchanged? && held.Some? ==> BuildManifest(db, boxId) == Success(held.value)
    {
      EvolvesReflexive(db);
      held, last := None, NotFound;
      for i := 0 to rounds
        invariant ValidDb(db) && Evolves(old(db), db)
        invariant held.Some? ==> Coherent(db, boxId, held.value)
        invariant last.Unchanged? && held.Some? ==> BuildManifest(db, boxId) == Success(held.value)
      {
        ghost var before := db;
        Others();
        EvolvesTransitive(old(db), before, db);
        if held.Some? {
          CoherentKept(before, db, boxId, held.value);
        }
        ghost var polled := db;
        last := HandleBoxChanges(boxId, if held.Some? then held.value.box.version else 0);
        EvolvesTransitive(old(db), polled, db);
        if last.Fresh? {
          held := Some(last.manifest);
        } else if held.Some? {
          CoherentKept(polled, db, boxId, held.value);
        }
      }
    }
  }

  // --- the local loops of a build ---

  function LimitAt(m: map<Purpose, Limits>, p: Purpose): Option<Limits> {
    if p in m then Some(m[p]) else None
  }

  method LimitWalk(boxFor: map<Purpose, Limits>, factoryFor: map<Purpose, Limits>) returns (out: map<Purpose, Limits>)
    ensures forall p :: LimitAt(out, p) == ResolvedLimit(boxFor, factoryFor, p)
    ensures forall p :: p in out <==> p in boxFor || p in factoryFor
    ensures forall p :: p in out ==> out[p] == if p in boxFor then boxFor[p] else factoryFor[p]
  {
    out := map[];
    for i := 0 to |PURPOSE_ORDER|
      invariant forall p :: LimitAt(out, p) == if p in PURPOSE_ORDER[..i] then ResolvedLimit(boxFor, factoryFor, p) else None
    {
      var p := PURPOSE_ORDER[i];
      if p in boxFor {
        out := out[p := boxFor[p]];
      } else if p in factoryFor {
        out := out[p := factoryFor[p]];
      }
      assert PURPOSE_ORDER[..i + 1] == PURPOSE_ORDER[..i] + [p];
    }
    forall p ensures p in PURPOSE_ORDER[..|PURPOSE_ORDER|] {
      var j := PurposeIndex(p);
    }
    assert forall p :: p in out <==> LimitAt(out, p).Some?;
  }

  method FillEntries(resolved: map<Purpose, (Id, Pin)>, limits: map<Purpose, Limits>)
    returns (models: map<Purpose, ModelEntry>)
    ensures forall p :: FilledAt(resolved, limits, PURPOSE_ORDER, models, p)
  {
    models := map[];
    for i := 0 to |PURPOSE_ORDER|
      invariant forall p :: FilledAt(resolved, limits, PURPOSE_ORDER[..i], models, p)
    {
      var p := PURPOSE_ORDER[i];
      ghost var filled := models;
      if p in resolved {
        var files := FillFiles(resolved[p].1);
        var shown := if Generative(p) && p in limits then ManifestLimits(Some(limits[p])) else None;
        models := models[p := ModelEntry(resolved[p].0, resolved[p].1.(files := files[..]), shown)];
        assert models[p] == EntryFor(p, resolved[p].0, resolved[p].1, LimitAt(limits, p));
      }
      ghost var done := PURPOSE_ORDER[..i + 1];
      assert done == PURPOSE_ORDER[..i] + [p];
      forall q ensures FilledAt(resolved, limits, done, models, q) {
        assert FilledAt(resolved, limits, PURPOSE_ORDER[..i], filled, q);
      }
    }
    assert PURPOSE_ORDER[..|PURPOSE_ORDER|] == PURPOSE_ORDER;
  }

  /** A copy of the pin's list, with the anchor's digest filled in place. */
  method FillFiles(pin: Pin) returns (out: array<ModelFile>)
    ensures fresh(out) && out[..] == ManifestFiles(pin) && out.Length == |pin.files|
    ensures forall k :: 0 <= k < out.Length ==> out[k].file == pin.files[k].file && out[k].size == pin.files[k].size
    ensures forall k :: 0 <= k < out.Length ==>
              out[k].digest == if pin.files[k].digest == "" && pin.files[k].file == pin.file then pin.digest
                               else pin.files[k].digest
  {
    out := new ModelFile[|pin.files|](i requires 0 <= i < |pin.files| => pin.files[i]);
    for i := 0 to out.Length
      invariant forall k | 0 <= k < i :: out[k] == ManifestFiles(pin)[k]
      invariant forall k | i <= k < out.Length :: out[k] == pin.files[k]
    {
      if out[i].digest == "" && out[i].file == pin.file && pin.digest != "" {
        out[i] := out[i].(digest := pin.digest);
      }
    }
  }
}
