/**
  Who may change whom in an organization, said of the rosters themselves: what each role can do, what a
  token adds to that, and whose hand moved every row that moved.
 */
module MembershipMeaning {
  import opened Wrappers
  import opened Membership
  import MembershipLaws

  // What a role can do

  /** What every member can do in an organization. */
  const MEMBERS_MAY: set<Capability> := {
    "read:hub.org", "read:hub.project", "read:fleet.connector", "exec:fleet.connector", "read:fleet.terminal",
    "attach:fleet.terminal", "read:fleet.file", "write:fleet.file", "read:project.task", "create:project.task",
    "read:hub.template", "read:hub.preset", "read:hub.event"
  }

  /** What takes an admin or an owner. */
  const ADMINS_MAY: set<Capability> := {
    "admin:hub.org", "admin:hub.staff", "create:hub.project", "delete:hub.project", "admin:hub.project",
    "create:fleet.connector", "admin:fleet.connector", "admin:hub.preset"
  }

  /** The role an account has in an organization now; "" is none. */
  function RoleAt(h: Hub, account: Id, org: Id): Role {
    if org in h.members && account in h.members[org] then h.members[org][account] else ""
  }

  lemma RequesterRole(h: Hub, account: Id, platform: bool, org: Id)
    ensures RequesterFor(h, account, platform).RoleIn(org) == RoleAt(h, account, org)
  {
  }

  /** Inside an organization only the role there counts: being the platform's own account gives nothing. */
  lemma RolesMean(h: Hub, account: Id, platform: bool, org: Id, c: Capability)
    requires org != ""
    ensures var role := RoleAt(h, account, org);
      RequesterFor(h, account, platform).Can(c, org) <==>
        || (role in {"member", "admin", "owner"} && c in MEMBERS_MAY)
        || (role in {"admin", "owner"} && c in ADMINS_MAY)
        || (role == "owner" && c == "delete:hub.org")
  {
    RequesterRole(h, account, platform, org);
    MinimumIs(c);
  }

  lemma MinimumIs(c: Capability)
    ensures c in ORG_MINIMUM && ORG_MINIMUM[c] == MEMBER <==> c in MEMBERS_MAY
    ensures c in ORG_MINIMUM && ORG_MINIMUM[c] == ADMIN <==> c in ADMINS_MAY
    ensures c in ORG_MINIMUM && ORG_MINIMUM[c] == OWNER <==> c == "delete:hub.org"
    ensures c in ORG_MINIMUM ==> ORG_MINIMUM[c] in {MEMBER, ADMIN, OWNER}
  {
  }

  /** What there is to administer outside every organization. */
  const PLATFORM_MAY: set<Capability> := {
    "admin:hub.account", "admin:hub.org", "admin:hub.staff", "admin:hub.skill", "admin:hub.model",
    "read:hub.org", "read:fleet.box", "admin:fleet.box", "read:hub.update", "admin:hub.update"
  }

  /** Outside every organization there is only the platform's account, and only what exists there. */
  lemma PlatformMeans(h: Hub, account: Id, platform: bool, c: Capability)
    ensures RequesterFor(h, account, platform).Can(c, "") <==> platform && c in PLATFORM_MAY
  {
  }

  /**
    A token does what its account does, what it lists, and what lies within its bounds, all three: an installation
    token nothing inside an organization, and nothing that account and update administration need.
   */
  lemma TokensMean(req: Requester, g: Grant, c: Capability, org: Id, project: Id)
    ensures Credential(req, Some(g)).Can(c, org, project) <==>
      && req.Can(c, org) && c in g.scopes
      && (if g.installation
          then org == "" && project == "" && c in PLATFORM_MAY && c !in {
                 "admin:hub.account", "read:hub.update", "admin:hub.update"}
          else org != "" && g.org == org && g.project in {"", project})
    ensures Credential(req, None).Can(c, org, project) <==> req.Can(c, org)
  {
    assert c in INSTALLATION_GRANTABLE <==> c in PLATFORM_MAY && c !in {"admin:hub.account", "read:hub.update", "admin:hub.update"};
  }

  // Decisions

  /** The only owner there is. */
  predicate LastOne(roster: Roster, target: Id) {
    target in roster && roster[target] == "owner" && forall a :: a in roster && roster[a] == "owner" ==> a == target
  }

  lemma LastOneCounts(roster: Roster, target: Id)
    requires target in roster && roster[target] == "owner"
    ensures |OwnerSet(roster)| == 1 <==> LastOne(roster, target)
  {
    var owners := OwnerSet(roster);
    assert target in owners;
    if LastOne(roster, target) {
      assert owners == {target};
    }
    if |owners| == 1 {
      forall a | a in roster && roster[a] == "owner" ensures a == target {
        assert a in owners;
        assert |owners - {target}| == 0;
        assert a !in owners - {target};
      }
    }
  }

  /**
    A role change is allowed exactly to admins and owners of the organization, on its members, to a known role;
    what touches ownership takes an owner, and the last owner keeps it. To leave a role as it is takes no more.
   */
  lemma RoleChangeMeans(h: Hub, account: Id, platform: bool, org: Id, target: Id, role: Role)
    requires org != ""
    ensures var roster := RosterOf(h, org);
      var mine := RoleAt(h, account, org);
      AuthorizeRoleChange(RequesterFor(h, account, platform), org, roster, target, role).None? <==>
        && role in {"member", "admin", "owner"} && mine in {"admin", "owner"} && target in roster
        && (roster[target] == role
            || (("owner" in {roster[target], role} ==> mine == "owner") && !LastOne(roster, target)))
  {
    RolesMean(h, account, platform, org, ADMIN_ORG);
    RequesterRole(h, account, platform, org);
    var roster := RosterOf(h, org);
    if target in roster && roster[target] == "owner" { LastOneCounts(roster, target); }
  }

  /** A removal is allowed to oneself, and to admins and owners; an owner goes by an owner's hand or their own, the last one never. */
  lemma RemovalMeans(h: Hub, account: Id, platform: bool, org: Id, target: Id)
    requires org != ""
    ensures var roster := RosterOf(h, org);
      var mine := RoleAt(h, account, org);
      AuthorizeRemoval(RequesterFor(h, account, platform), org, roster, target).None? <==>
        && target in roster && !LastOne(roster, target)
        && ((account != "" && account == target)
            || (mine in {"admin", "owner"} && (roster[target] == "owner" ==> mine == "owner")))
  {
    RolesMean(h, account, platform, org, ADMIN_ORG);
    RequesterRole(h, account, platform, org);
    var roster := RosterOf(h, org);
    if target in roster && roster[target] == "owner" { LastOneCounts(roster, target); }
  }

  /** An invitation is minted by an admin or an owner; to ownership, by an owner. */
  lemma InviteMeans(h: Hub, account: Id, platform: bool, org: Id, role: Role)
    requires org != ""
    ensures AuthorizeInvite(RequesterFor(h, account, platform), org, role).None? <==>
      var mine := RoleAt(h, account, org);
      (role in {"member", "admin"} && mine in {"admin", "owner"}) || (role == "owner" && mine == "owner")
  {
    RolesMean(h, account, platform, org, ADMIN_ORG);
    RequesterRole(h, account, platform, org);
  }

  /** Permission comes before existence: who may not administer an organization is told so, whoever is in it. */
  lemma RefusalsMean(h: Hub, account: Id, platform: bool, org: Id, target: Id, role: Role)
    requires org != ""
    ensures var mine := RoleAt(h, account, org);
      var change := AuthorizeRoleChange(RequesterFor(h, account, platform), org, RosterOf(h, org), target, role);
      && (change == Some(RoleUnknown) <==> role !in {"member", "admin", "owner"})
      && (change == Some(Forbidden) <==> role in {"member", "admin", "owner"} && mine !in {"admin", "owner"})
      && (change == Some(NotMember) <==>
            role in {"member", "admin", "owner"} && mine in {"admin", "owner"} && target !in RosterOf(h, org))
      && (change == Some(LastOwner) ==> LastOne(RosterOf(h, org), target) && mine == "owner")
    ensures var mine := RoleAt(h, account, org);
      var self := account != "" && account == target;
      var removal := AuthorizeRemoval(RequesterFor(h, account, platform), org, RosterOf(h, org), target);
      && (removal == Some(Forbidden) <==> !self && mine !in {"admin", "owner"})
      && (removal == Some(NotMember) <==> (self || mine in {"admin", "owner"}) && target !in RosterOf(h, org))
      && (removal == Some(LastOwner) ==> LastOne(RosterOf(h, org), target))
  {
    RolesMean(h, account, platform, org, ADMIN_ORG);
    RequesterRole(h, account, platform, org);
    var roster := RosterOf(h, org);
    if target in roster && roster[target] == "owner" { LastOneCounts(roster, target); }
  }

  // Invitations

  /** An invitation is accepted exactly when it is unused, in time, and there is room; it gives its role, once, to nobody who has one. */
  lemma AcceptMeans(h: Hub, token: Id, account: Id, room: bool, now: int)
    ensures var after := Apply(h, AcceptInvite(token, account, room, now));
      if token in h.invites && !h.invites[token].used && now < h.invites[token].expiresAt
         && (room || account in RosterOf(h, h.invites[token].org))
      then
        var i := h.invites[token];
        && after.invites == h.invites[token := i.(used := true)]
        && RosterOf(after, i.org) ==
             (if account in RosterOf(h, i.org) then RosterOf(h, i.org) else RosterOf(h, i.org)[account := i.role])
        && Apply(after, AcceptInvite(token, account, room, now)) == after
      else after == h
  {
  }

  /** A new invitation retires every open one to the same address in the same organization, and no other. */
  lemma MintingRetires(h: Hub, r: Request, token: Id)
    requires r.CreateInvite? && r.token !in h.invites && r.token in Apply(h, r).invites && token in h.invites
    ensures token in Apply(h, r).invites && Apply(h, r).members == h.members
    ensures var was, i := h.invites[token], Apply(h, r).invites[token];
      i == if was.org == r.org && was.email == r.email then was.(used := true) else was
  {
  }

  lemma RevokeMeans(h: Hub, org: Id, token: Id)
    ensures var after := Apply(h, RevokeInvite(org, token));
      && after.members == h.members && after.invites.Keys == h.invites.Keys
      && (token in h.invites && h.invites[token].org == org ==> after.invites[token].used)
      && forall t :: t in h.invites && (t != token || h.invites[t].org != org) ==> after.invites[t] == h.invites[t]
  {
  }

  // Whose hand it was

  /** A session, or a token of that organization as a whole that lists the administration of it. */
  predicate CarriesTheVerb(cred: Credential, org: Id) {
    cred.grant.Some? ==>
      var g := cred.grant.value;
      "admin:hub.org" in g.scopes && !g.installation && g.org == org && g.project == ""
  }

  /** The request that may have moved the row of `who`, and the standing it was made with. */
  predicate MayMove(h: Hub, r: Request, org: Id, who: Id) {
    match r
    case SetRole(cred, o, target, role) =>
      o == org && target == who && CarriesTheVerb(cred, org) && RoleAt(h, cred.requester.account, org) in {"admin", "owner"}
    case Remove(cred, o, target) =>
      && o == org && target == who && CarriesTheVerb(cred, org)
      && (RoleAt(h, cred.requester.account, org) in {"admin", "owner"} || cred.requester.account == who)
    case AcceptInvite(token, account, _, now) =>
      && account == who && token in h.invites && Live(h.invites[token], now) && h.invites[token].org == org
      && RoleAt(h, who, org) == ""
    case _ => false
  }

  lemma TokenCarries(cred: Credential, org: Id)
    requires org != "" && !TokenRefused(cred, org)
    ensures CarriesTheVerb(cred, org)
  {
    if cred.grant.Some? {
      TokensMean(cred.requester, cred.grant.value, ADMIN_ORG, org, "");
    }
  }

  lemma SetRoleMoves(h: Hub, cred: Credential, org: Id, target: Id, role: Role, who: Id)
    requires org != "" && cred.requester == RequesterFor(h, cred.requester.account, cred.requester.platform)
    ensures var r := SetRole(cred, org, target, role);
      RoleAt(Apply(h, r), who, org) != RoleAt(h, who, org) ==> MayMove(h, r, org, who)
  {
    RoleChangeMeans(h, cred.requester.account, cred.requester.platform, org, target, role);
    if !TokenRefused(cred, org) { TokenCarries(cred, org); }
  }

  lemma RemoveMoves(h: Hub, cred: Credential, org: Id, target: Id, who: Id)
    requires org != "" && cred.requester == RequesterFor(h, cred.requester.account, cred.requester.platform)
    ensures var r := Remove(cred, org, target);
      RoleAt(Apply(h, r), who, org) != RoleAt(h, who, org) ==> MayMove(h, r, org, who)
  {
    RemovalMeans(h, cred.requester.account, cred.requester.platform, org, target);
    if !TokenRefused(cred, org) { TokenCarries(cred, org); }
  }

  lemma InviteMoves(h: Hub, token: Id, account: Id, room: bool, now: int, org: Id, who: Id)
    ensures var r := AcceptInvite(token, account, room, now);
      RoleAt(Apply(h, r), who, org) != RoleAt(h, who, org) ==> MayMove(h, r, org, who)
  {
  }

  /** No row of a roster moves but by an admin's or an owner's hand, the account's own leaving, or its own joining. */
  lemma RowsMoveByAdmins(h: Hub, r: Request, org: Id, who: Id)
    requires Current(h, r) && org != ""
    ensures RoleAt(Apply(h, r), who, org) != RoleAt(h, who, org) ==> MayMove(h, r, org, who)
  {
    match r
    case SetRole(cred, o, target, role) => if o == org { SetRoleMoves(h, cred, org, target, role, who); }
    case Remove(cred, o, target) => if o == org { RemoveMoves(h, cred, org, target, who); }
    case AcceptInvite(token, account, room, now) => InviteMoves(h, token, account, room, now, org, who);
    case _ =>
  }

  /** A new invitation comes from an admin or an owner of its organization, one to ownership from an owner. */
  lemma InvitationsComeFromAdmins(h: Hub, r: Request, token: Id)
    requires Current(h, r) && token !in h.invites && token in Apply(h, r).invites && r.CreateInvite? && r.org != ""
    ensures var i := Apply(h, r).invites[token];
      && r.token == token && i.org == r.org && i.role == r.role && !i.used && CarriesTheVerb(r.cred, r.org)
      && RoleAt(h, r.cred.requester.account, r.org) in {"admin", "owner"}
      && (i.role == "owner" ==> RoleAt(h, r.cred.requester.account, r.org) == "owner")
  {
    InviteMeans(h, r.cred.requester.account, r.cred.requester.platform, r.org, r.role);
    TokenCarries(r.cred, r.org);
  }

  /** No other request mints one. */
  lemma OnlyInvitesMint(h: Hub, r: Request, token: Id)
    requires token !in h.invites && token in Apply(h, r).invites
    ensures r.CreateInvite? && r.token == token
  {
  }

  ghost predicate MovedByAdmins(h: Hub, rs: seq<Request>, org: Id)
    decreases |rs|
  {
    rs == [] ||
    (&& (forall who :: RoleAt(Apply(h, rs[0]), who, org) != RoleAt(h, who, org) ==> MayMove(h, rs[0], org, who))
     && MovedByAdmins(Apply(h, rs[0]), rs[1..], org))
  }

  /** So it is at every step of every run. */
  lemma {:induction false} RunMovesByAdmins(h: Hub, rs: seq<Request>, org: Id)
    requires CurrentRun(h, rs) && org != ""
    ensures MovedByAdmins(h, rs, org)
    decreases |rs|
  {
    if rs != [] {
      forall who ensures RoleAt(Apply(h, rs[0]), who, org) != RoleAt(h, who, org) ==> MayMove(h, rs[0], org, who) {
        RowsMoveByAdmins(h, rs[0], org, who);
      }
      RunMovesByAdmins(Apply(h, rs[0]), rs[1..], org);
    }
  }
}
