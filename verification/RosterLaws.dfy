/**
  What writes to a box's own columns, its narrator, its organizations and their staff do to the next
  manifest of every box.
 */
module RosterLaws {
  import opened Wrappers
  import opened BoxTables
  import opened BoxManifest
  import opened BoxWrites
  import opened EffectLaws

  /** A manifest with other parts beside its models. */
  lemma Repainted(f: Footprint, g: Footprint, m: Manifest)
    requires ManifestOf(f) == Success(m)
    requires g.pins == f.pins && g.overrides == f.overrides && g.assignments == f.assignments
    requires g.boxLimits == f.boxLimits && g.limits == f.limits
    ensures ManifestOf(g) == Success(Manifest(g.box, g.orgs, RostersIn(g), g.narrator, m.models))
    ensures m.orgs == f.orgs && m.staff == RostersIn(f) && m.box == f.box && m.narrator == f.narrator
  {
  }

  // --- the box's own rows ---

  lemma ColumnsFootprint(db: Db, boxId: Id, row: Box, b: Id)
    requires boxId in db.boxes && b in db.boxes
    ensures FootprintOf(db.(boxes := db.boxes[boxId := row]), b) ==
            if b == boxId then FootprintOf(db, b).(box := row) else FootprintOf(db, b)
  {
    assert BoundOrgs(db.(boxes := db.boxes[boxId := row]), b) == BoundOrgs(db, b);
  }

  lemma ColumnsManifest(db: Db, boxId: Id, row: Box, b: Id, m: Manifest)
    requires boxId in db.boxes && BuildManifest(db, b) == Success(m)
    ensures ManifestOf(FootprintOf(db.(boxes := db.boxes[boxId := row]), b)) ==
            Success(if b == boxId then m.(box := row) else m)
  {
    ColumnsFootprint(db, boxId, row, b);
    if b == boxId {
      Reboxed(FootprintOf(db, b), row);
    }
  }

  lemma ColumnsCommit(db: Db, boxId: Id, name: string, hostId: string, edition: string)
    requires boxId in db.boxes
    ensures var row := db.boxes[boxId].(name := name, hostId := hostId, edition := edition);
            UpdateBox(db, boxId, name, hostId, Some(edition)) == (Bump(db.(boxes := db.boxes[boxId := row]), {boxId}), Done)
  {
  }

  /** An edit of a box's own columns shows in its manifest, one version on, and nowhere else. */
  lemma BoxColumnsShow(db: Db, boxId: Id, name: string, hostId: string, edition: string, b: Id, m: Manifest)
    requires boxId in db.boxes && BuildManifest(db, b) == Success(m)
    ensures BuildManifest(UpdateBox(db, boxId, name, hostId, Some(edition)).0, b) == Success(
      if b != boxId then m
      else m.(box := Box(m.box.slug, name, hostId, edition, m.box.version + 1)))
  {
    var row := db.boxes[boxId].(name := name, hostId := hostId, edition := edition);
    ColumnsCommit(db, boxId, name, hostId, edition);
    BoxShown(db, b, m);
    ColumnsBuild(db, boxId, row, b, m);
  }

  lemma ColumnsBuild(db: Db, boxId: Id, row: Box, b: Id, m: Manifest)
    requires boxId in db.boxes && BuildManifest(db, b) == Success(m)
    ensures BuildManifest(Bump(db.(boxes := db.boxes[boxId := row]), {boxId}), b) ==
            Success(if b == boxId then m.(box := NextBox(row)) else m)
  {
    ColumnsManifest(db, boxId, row, b, m);
    BumpedManifest(db.(boxes := db.boxes[boxId := row]), {boxId}, b, if b == boxId then m.(box := row) else m);
  }

  function NarratorRow(db: Db, boxId: Id, being: Being, newId: Id, now: int): BoxNarrator {
    if boxId in db.narrators then db.narrators[boxId].(being := being, updatedAt := now) else BoxNarrator(newId, being, now, now)
  }

  lemma NarratorFootprint(db: Db, boxId: Id, row: BoxNarrator, b: Id)
    requires b in db.boxes
    ensures FootprintOf(db.(narrators := db.narrators[boxId := row]), b) ==
            if b == boxId then FootprintOf(db, b).(narrator := Some(row)) else FootprintOf(db, b)
  {
    assert BoundOrgs(db.(narrators := db.narrators[boxId := row]), b) == BoundOrgs(db, b);
  }

  lemma BoxShown(db: Db, b: Id, m: Manifest)
    requires BuildManifest(db, b) == Success(m)
    ensures m.box == db.boxes[b]
  {
  }

  lemma NarratorManifest(f: Footprint, row: BoxNarrator, m: Manifest)
    requires ManifestOf(f) == Success(m)
    ensures ManifestOf(f.(narrator := Some(row))) == Success(m.(narrator := Some(row)))
  {
  }

  lemma NarratorCommit(db: Db, boxId: Id, being: Being, newId: Id, now: int)
    requires ValidGender(being.gender)
    ensures UpdateBoxNarrator(db, boxId, being, newId, now) ==
            (Bump(db.(narrators := db.narrators[boxId := NarratorRow(db, boxId, being, newId, now)]), {boxId}), Done)
  {
  }

  /** An edited narrator keeps its id and birthday and shows on its own box alone. */
  lemma NarratorShows(db: Db, boxId: Id, being: Being, newId: Id, now: int, b: Id, m: Manifest)
    requires ValidGender(being.gender) && BuildManifest(db, b) == Success(m)
    ensures BuildManifest(UpdateBoxNarrator(db, boxId, being, newId, now).0, b) == Success(
      if b != boxId then m
      else Next(m).(narrator := Some(match m.narrator
                                     case Some(was) => was.(being := being, updatedAt := now)
                                     case None => BoxNarrator(newId, being, now, now))))
  {
    var row := NarratorRow(db, boxId, being, newId, now);
    var mid := db.(narrators := db.narrators[boxId := row]);
    NarratorCommit(db, boxId, being, newId, now);
    NarratorFootprint(db, boxId, row, b);
    Repainted(FootprintOf(db, b), FootprintOf(db, b), m);
    if b == boxId {
      NarratorManifest(FootprintOf(db, b), row, m);
    }
    BumpedManifest(mid, {boxId}, b, if b == boxId then m.(narrator := Some(row)) else m);
  }

  // --- organizations ---

  function NamedOrgs(db: Db, orgIds: seq<Id>): map<Id, Org> {
    map o | o in orgIds && o in db.orgs :: db.orgs[o]
  }

  /** The roster of one organization. */
  function RosterAt(db: Db, o: Id): map<string, StaffView> {
    Roster(db.staff, RowsOf(db.orgStaff, o))
  }

  lemma BoundFootprint(db: Db, boxId: Id, orgIds: seq<Id>, b: Id)
    requires b in db.boxes
    ensures var ids := set o | o in orgIds;
            var f := FootprintOf(db, b);
            FootprintOf(db.(boxOrgs := db.boxOrgs[boxId := ids]), b) ==
              if b == boxId
              then f.(bound := ids, orgs := NamedOrgs(db, orgIds), tuning := map o | o in ids :: RowsOf(db.orgStaff, o))
              else f
  {
    var ids := set o | o in orgIds;
    var mid := db.(boxOrgs := db.boxOrgs[boxId := ids]);
    if b == boxId {
      assert BoundOrgs(mid, b) == ids;
      assert FootprintOf(mid, b).orgs == NamedOrgs(db, orgIds);
    } else {
      assert BoundOrgs(mid, b) == BoundOrgs(db, b);
    }
  }

  lemma BoundRosters(db: Db, orgIds: seq<Id>, g: Footprint)
    requires g.orgs == NamedOrgs(db, orgIds) && g.staff == db.staff
    requires g.tuning == map o | o in (set x | x in orgIds) :: RowsOf(db.orgStaff, o)
    ensures RostersIn(g) == map o | o in NamedOrgs(db, orgIds) :: RosterAt(db, o)
  {
  }

  /** A box carries exactly the existing organizations among those it was last bound to, each with its whole roster. */
  lemma BoundOrgsShow(db: Db, boxId: Id, orgIds: seq<Id>, b: Id, m: Manifest)
    requires BuildManifest(db, b) == Success(m)
    ensures BuildManifest(SetBoxOrgs(db, boxId, orgIds).0, b) == Success(
      if b != boxId then m
      else Next(m).(orgs := NamedOrgs(db, orgIds), staff := map o | o in NamedOrgs(db, orgIds) :: RosterAt(db, o)))
  {
    BoundManifest(db, boxId, orgIds, b, m);
    var orgs := NamedOrgs(db, orgIds);
    var rosters := map o | o in orgs :: RosterAt(db, o);
    BumpedManifest(db.(boxOrgs := db.boxOrgs[boxId := set o | o in orgIds]), {boxId}, b,
                   if b == boxId then m.(orgs := orgs, staff := rosters) else m);
  }

  lemma BoundBuild(db: Db, orgIds: seq<Id>, f: Footprint, g: Footprint, m: Manifest)
    requires ManifestOf(f) == Success(m) && f.staff == db.staff
    requires g == f.(bound := g.bound, orgs := NamedOrgs(db, orgIds), tuning := g.tuning)
    requires g.tuning == map o | o in (set x | x in orgIds) :: RowsOf(db.orgStaff, o)
    ensures ManifestOf(g) ==
            Success(m.(orgs := NamedOrgs(db, orgIds), staff := map o | o in NamedOrgs(db, orgIds) :: RosterAt(db, o)))
  {
    Repainted(f, g, m);
    BoundRosters(db, orgIds, g);
  }

  lemma BoundManifest(db: Db, boxId: Id, orgIds: seq<Id>, b: Id, m: Manifest)
    requires BuildManifest(db, b) == Success(m)
    ensures ManifestOf(FootprintOf(db.(boxOrgs := db.boxOrgs[boxId := set o | o in orgIds]), b)) == Success(
      if b != boxId then m
      else m.(orgs := NamedOrgs(db, orgIds), staff := map o | o in NamedOrgs(db, orgIds) :: RosterAt(db, o)))
  {
    BoundFootprint(db, boxId, orgIds, b);
    if b == boxId {
      var g := FootprintOf(db.(boxOrgs := db.boxOrgs[boxId := set o | o in orgIds]), b);
      BoundBuild(db, orgIds, FootprintOf(db, b), g, m);
    }
  }

  // --- staff ---

  /** What an organization sees of a staff row: its own columns where it set them. */
  function Seen(row: StaffRow, ov: Option<StaffOverride>): StaffView {
    if ov.Some? then Tuned(row, ov.value) else StaffView(row, "")
  }

  function TuningAt(db: Db, o: Id, staffId: Id): Option<StaffOverride> {
    if staffId in RowsOf(db.orgStaff, o) then Some(RowsOf(db.orgStaff, o)[staffId]) else None
  }

  /** A roster in which one member is tuned otherwise. */
  function Retuned(roster: map<string, StaffView>, staff: map<string, StaffRow>, staffId: Id, ov: Option<StaffOverride>)
    : map<string, StaffView>
  {
    map slug | slug in roster :: if slug in staff && staff[slug].id == staffId then Seen(staff[slug], ov) else roster[slug]
  }

  lemma RetunedRoster(staff: map<string, StaffRow>, tuning: map<Id, StaffOverride>, staffId: Id, ov: StaffOverride)
    ensures Roster(staff, tuning[staffId := ov]) == Retuned(Roster(staff, tuning), staff, staffId, Some(ov))
    ensures Roster(staff, tuning - {staffId}) == Retuned(Roster(staff, tuning), staff, staffId, None)
  {
  }

  lemma TuningFootprint(db: Db, orgStaff: map<Id, map<Id, StaffOverride>>, b: Id)
    requires b in db.boxes
    ensures var f := FootprintOf(db, b);
            FootprintOf(db.(orgStaff := orgStaff), b) == f.(tuning := map o | o in f.bound :: RowsOf(orgStaff, o))
  {
    assert BoundOrgs(db.(orgStaff := orgStaff), b) == BoundOrgs(db, b);
  }

  function CarriedRosters(db: Db, b: Id): map<Id, map<string, StaffView>> {
    map o | o in BoundOrgs(db, b) && o in db.orgs :: RosterAt(db, o)
  }

  lemma RostersOf(db: Db, b: Id)
    requires b in db.boxes
    ensures RostersIn(FootprintOf(db, b)) == CarriedRosters(db, b)
  {
  }

  lemma StaffShown(db: Db, b: Id, m: Manifest)
    requires BuildManifest(db, b) == Success(m)
    ensures m.staff == CarriedRosters(db, b)
  {
    Repainted(FootprintOf(db, b), FootprintOf(db, b), m);
    RostersOf(db, b);
  }

  predicate SameButStaff(d: Db, e: Db, b: Id)
    requires b in d.boxes && b in e.boxes
  {
    var f, g := FootprintOf(d, b), FootprintOf(e, b);
    g == f.(staff := g.staff, tuning := g.tuning)
  }

  lemma Restaffed(d: Db, e: Db, b: Id, m: Manifest)
    requires BuildManifest(d, b) == Success(m) && b in e.boxes && SameButStaff(d, e, b)
    ensures ManifestOf(FootprintOf(e, b)) == Success(m.(staff := CarriedRosters(e, b)))
  {
    Repainted(FootprintOf(d, b), FootprintOf(e, b), m);
    RostersOf(e, b);
  }

  function WithTuning(db: Db, orgStaff: map<Id, map<Id, StaffOverride>>): Db {
    db.(orgStaff := orgStaff)
  }

  lemma CarriedChange(db: Db, orgStaff: map<Id, map<Id, StaffOverride>>, orgId: Id, b: Id)
    requires forall o | o != orgId :: RowsOf(orgStaff, o) == RowsOf(db.orgStaff, o)
    ensures CarriedRosters(WithTuning(db, orgStaff), b) ==
            if orgId in CarriedRosters(db, b)
            then CarriedRosters(db, b)[orgId := Roster(db.staff, RowsOf(orgStaff, orgId))]
            else CarriedRosters(db, b)
  {
    var e := WithTuning(db, orgStaff);
    assert BoundOrgs(e, b) == BoundOrgs(db, b);
    forall o | o != orgId ensures RosterAt(e, o) == RosterAt(db, o) {
    }
  }

  /** One organization's rows change, and with them its roster wherever it is carried. */
  lemma OrgRosterChanges(db: Db, orgStaff: map<Id, map<Id, StaffOverride>>, orgId: Id,
                         roster: map<string, StaffView>, b: Id, m: Manifest)
    requires BuildManifest(db, b) == Success(m)
    requires forall o | o != orgId :: RowsOf(orgStaff, o) == RowsOf(db.orgStaff, o)
    requires Roster(db.staff, RowsOf(orgStaff, orgId)) == roster
    ensures BuildManifest(BumpForOrg(WithTuning(db, orgStaff), orgId), b) == Success(
      if orgId !in BoundOrgs(db, b) then m
      else if orgId !in m.staff then Next(m)
      else Next(m).(staff := m.staff[orgId := roster]))
  {
    var mid := WithTuning(db, orgStaff);
    TuningFootprint(db, orgStaff, b);
    Restaffed(db, mid, b, m);
    StaffShown(db, b, m);
    CarriedChange(db, orgStaff, orgId, b);
    assert BoundOrgs(mid, b) == BoundOrgs(db, b);
    BumpedManifest(mid, Carrying(mid, orgId), b, m.(staff := CarriedRosters(mid, b)));
  }

  lemma TunedRows(db: Db, orgId: Id, staffId: Id, ov: StaffOverride, roster: map<string, StaffView>)
    requires roster == RosterAt(db, orgId)
    ensures var rows := PutRow(db.orgStaff, orgId, staffId, ov);
            && (forall o | o != orgId :: RowsOf(rows, o) == RowsOf(db.orgStaff, o))
            && Roster(db.staff, RowsOf(rows, orgId)) == Retuned(roster, db.staff, staffId, Some(ov))
    ensures var rows := DropRow(db.orgStaff, orgId, staffId);
            && (forall o | o != orgId :: RowsOf(rows, o) == RowsOf(db.orgStaff, o))
            && Roster(db.staff, RowsOf(rows, orgId)) == Retuned(roster, db.staff, staffId, None)
  {
    RetunedRoster(db.staff, RowsOf(db.orgStaff, orgId), staffId, ov);
    PutRows(db.orgStaff, orgId, staffId, ov, orgId);
  }

  /** Tuning a staff member changes that member in that organization, on the boxes that carry it, and nothing else anywhere. */
  lemma StaffTuningShows(db: Db, orgId: Id, staffId: Id, ov: StaffOverride, b: Id, m: Manifest)
    requires BuildManifest(db, b) == Success(m)
    ensures BuildManifest(SetOrgStaffOverride(db, orgId, staffId, ov).0, b) == Success(
      if orgId !in BoundOrgs(db, b) then m
      else if orgId !in m.staff then Next(m)
      else Next(m).(staff := m.staff[orgId := Retuned(m.staff[orgId], db.staff, staffId, Some(ov))]))
  {
    var roster := RosterAt(db, orgId);
    TunedRows(db, orgId, staffId, ov, roster);
    StaffShown(db, b, m);
    OrgRosterChanges(db, PutRow(db.orgStaff, orgId, staffId, ov), orgId, Retuned(roster, db.staff, staffId, Some(ov)), b, m);
  }

  /** Cleared, the canonical member shows again. */
  lemma ClearedTuningShows(db: Db, orgId: Id, staffId: Id, b: Id, m: Manifest)
    requires BuildManifest(db, b) == Success(m)
    ensures BuildManifest(ClearOrgStaffOverride(db, orgId, staffId).0, b) == Success(
      if orgId !in BoundOrgs(db, b) then m
      else if orgId !in m.staff then Next(m)
      else Next(m).(staff := m.staff[orgId := Retuned(m.staff[orgId], db.staff, staffId, None)]))
  {
    var roster := RosterAt(db, orgId);
    TunedRows(db, orgId, staffId, StaffOverride(None, None, None, None, None, None, None, None), roster);
    StaffShown(db, b, m);
    OrgRosterChanges(db, DropRow(db.orgStaff, orgId, staffId), orgId, Retuned(roster, db.staff, staffId, None), b, m);
  }

  function SavedRow(db: Db, slug: string, being: Being, newId: Id, now: int): StaffRow {
    if slug in db.staff then db.staff[slug].(being := being, updatedAt := now) else StaffRow(newId, being, now, now)
  }

  lemma StaffFootprint(db: Db, staff: map<string, StaffRow>, b: Id)
    requires b in db.boxes
    ensures FootprintOf(db.(staff := staff), b) == FootprintOf(db, b).(staff := staff)
  {
    assert BoundOrgs(db.(staff := staff), b) == BoundOrgs(db, b);
  }

  lemma SavedRoster(staff: map<string, StaffRow>, tuning: map<Id, StaffOverride>, slug: string, row: StaffRow)
    ensures Roster(staff[slug := row], tuning) ==
            Roster(staff, tuning)[slug := Seen(row, if row.id in tuning then Some(tuning[row.id]) else None)]
  {
  }

  lemma SavedCommit(db: Db, slug: string, being: Being, newId: Id, now: int)
    requires UpsertStaff(db, slug, being, newId, now).1.Done?
    ensures UpsertStaff(db, slug, being, newId, now).0 ==
            BumpAll(WithStaff(db, slug, SavedRow(db, slug, being, newId, now)))
  {
  }

  /** A view after an edit of its row: the tuned columns as they were, the others as the edit left them. */
  predicate Follows(was: StaffView, now: StaffView, being: Being, ov: StaffOverride) {
    var p, q, r := was.row.being.profile, now.row.being.profile, being.profile;
    && now.row.id == was.row.id && now.row.createdAt == was.row.createdAt && now.soulOverride == was.soulOverride
    && now.row.being.locale == being.locale && now.row.being.gender == being.gender
    && now.row.being.soulCore == being.soulCore
    && q.name == (if ov.name.Some? then p.name else r.name) && q.age == (if ov.age.Some? then p.age else r.age)
    && q.voice == (if ov.voice.Some? then p.voice else r.voice)
    && q.bigFive == (if ov.bigFive.Some? then p.bigFive else r.bigFive)
    && q.brief == (if ov.brief.Some? then p.brief else r.brief)
    && q.wordBudget == (if ov.wordBudget.Some? then p.wordBudget else r.wordBudget)
    && q.avatar == (if ov.avatar.Some? then p.avatar else r.avatar)
  }

  function WithStaff(db: Db, slug: string, row: StaffRow): Db {
    db.(staff := db.staff[slug := row])
  }

  lemma SavedRosterAt(db: Db, slug: string, row: StaffRow, o: Id)
    ensures RosterAt(WithStaff(db, slug, row), o) == RosterAt(db, o)[slug := Seen(row, TuningAt(db, o, row.id))]
  {
    SavedRoster(db.staff, RowsOf(db.orgStaff, o), slug, row);
  }

  lemma SameMaps<K, V>(a: map<K, V>, b: map<K, V>)
    requires a.Keys == b.Keys && forall k :: k in a ==> a[k] == b[k]
    ensures a == b
  {
  }

  lemma CarriedKeys(db: Db, slug: string, row: StaffRow, b: Id)
    ensures CarriedRosters(WithStaff(db, slug, row), b).Keys == CarriedRosters(db, b).Keys
  {
    assert BoundOrgs(WithStaff(db, slug, row), b) == BoundOrgs(db, b);
  }

  lemma SavedRosters(db: Db, slug: string, row: StaffRow, b: Id)
    ensures CarriedRosters(WithStaff(db, slug, row), b) ==
            map o | o in CarriedRosters(db, b) :: CarriedRosters(db, b)[o][slug := Seen(row, TuningAt(db, o, row.id))]
  {
    var was, shown := CarriedRosters(db, b), CarriedRosters(WithStaff(db, slug, row), b);
    var want := map o | o in was :: was[o][slug := Seen(row, TuningAt(db, o, row.id))];
    CarriedKeys(db, slug, row, b);
    assert want.Keys == was.Keys;
    forall o | o in shown ensures shown[o] == want[o] {
      SavedRosterAt(db, slug, row, o);
    }
    SameMaps(shown, want);
  }

  /** A saved staff member shows in every roster of every box, each organization's tuned columns surviving the edit. */
  lemma UpsertedStaffShows(db: Db, slug: string, being: Being, newId: Id, now: int, b: Id, m: Manifest)
    requires UpsertStaff(db, slug, being, newId, now).1.Done? && BuildManifest(db, b) == Success(m)
    ensures var row := SavedRow(db, slug, being, newId, now);
            BuildManifest(UpsertStaff(db, slug, being, newId, now).0, b) == Success(Next(m).(
              staff := map o | o in m.staff :: m.staff[o][slug := Seen(row, TuningAt(db, o, row.id))]))
  {
    var row := SavedRow(db, slug, being, newId, now);
    var mid := WithStaff(db, slug, row);
    SavedCommit(db, slug, being, newId, now);
    StaffFootprint(db, db.staff[slug := row], b);
    Restaffed(db, mid, b, m);
    StaffShown(db, b, m);
    SavedRosters(db, slug, row, b);
    BumpedManifest(mid, mid.boxes.Keys, b, m.(staff := CarriedRosters(mid, b)));
  }

  /** An organization that tuned a member keeps its columns through an edit of the member, and follows it in the others. */
  lemma TuningSurvivesAnEdit(db: Db, slug: string, being: Being, newId: Id, now: int, b: Id, m: Manifest, m': Manifest, o: Id)
    requires UpsertStaff(db, slug, being, newId, now).1.Done? && BuildManifest(db, b) == Success(m)
    requires BuildManifest(UpsertStaff(db, slug, being, newId, now).0, b) == Success(m')
    requires slug in db.staff && o in m.staff && TuningAt(db, o, db.staff[slug].id).Some?
    ensures o in m'.staff && slug in m.staff[o] && slug in m'.staff[o]
    ensures Follows(m.staff[o][slug], m'.staff[o][slug], being, TuningAt(db, o, db.staff[slug].id).value)
  {
    UpsertedStaffShows(db, slug, being, newId, now, b, m);
    StaffShown(db, b, m);
  }
}
