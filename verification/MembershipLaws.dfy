/** The last-owner invariant over whole runs, and who can move the set of owners. */
module MembershipLaws {
  import opened Wrappers
  import opened Membership

  predicate HasOwner(h: Hub, org: Id) {
    OwnerSet(RosterOf(h, org)) != {}
  }

  lemma SetRoleOwners(roster: Roster, target: Id, role: Role)
    requires target in roster
    ensures OwnerSet(RoleSet(roster, target, role)) ==
            if role == OWNER then OwnerSet(roster) + {target} else OwnerSet(roster) - {target}
  {
  }

  lemma RemovedOwners(roster: Roster, target: Id)
    ensures OwnerSet(Removed(roster, target)) == OwnerSet(roster) - {target}
  {
  }

  /**
    What a write on the roster does, whoever authorized it and when: it leaves the organization
    without an owner exactly when it unmakes its only owner.
   */
  lemma WriteLosesLastOwnerExactly(roster: Roster, target: Id, role: Option<Role>)
    requires OwnerSet(roster) != {} && target in roster
    ensures var after := if role.Some? then RoleSet(roster, target, role.value) else Removed(roster, target);
      OwnerSet(after) == {} <==> OwnerSet(roster) == {target} && role != Some(OWNER)
    ensures OwnerSet(roster) == {target} ==> roster[target] == OWNER && |OwnerSet(roster)| == 1
  {
    RemovedOwners(roster, target);
    if role.Some? { SetRoleOwners(roster, target, role.value); }
    if OwnerSet(roster) == {target} {
      assert target in {target};
    }
    assert OwnerSet(roster) - {target} == {} && OwnerSet(roster) != {} ==> OwnerSet(roster) == {target};
  }

  lemma StepKeepsOwner(h: Hub, r: Request, org: Id)
    requires HasOwner(h, org)
    ensures HasOwner(Apply(h, r), org)
  {
    match r
    case SetRole(cred, o, target, role) =>
      if o == org && Apply(h, r) != h { RoleChangeKeepsOwner(h, cred, org, target, role); }
    case Remove(cred, o, target) =>
      if o == org && Apply(h, r) != h { RemovalKeepsOwner(h, cred, org, target); }
    case AcceptInvite(token, account, room, now) =>
      var a :| a in OwnerSet(RosterOf(h, org));
      assert a in OwnerSet(RosterOf(Apply(h, r), org));
    case _ =>
  }

  lemma RoleChangeKeepsOwner(h: Hub, cred: Credential, org: Id, target: Id, role: Role)
    requires HasOwner(h, org)
    requires AuthorizeRoleChange(cred.requester, org, RosterOf(h, org), target, role).None?
    ensures HasOwner(WithRoster(h, org, RoleSet(RosterOf(h, org), target, role)), org)
  {
    var roster := RosterOf(h, org);
    WriteLosesLastOwnerExactly(roster, target, Some(role));
  }

  lemma RemovalKeepsOwner(h: Hub, cred: Credential, org: Id, target: Id)
    requires HasOwner(h, org)
    requires AuthorizeRemoval(cred.requester, org, RosterOf(h, org), target).None?
    ensures HasOwner(WithRoster(h, org, Removed(RosterOf(h, org), target)), org)
  {
    var roster := RosterOf(h, org);
    WriteLosesLastOwnerExactly(roster, target, None);
  }

  /** An organization that has an owner has one after any run of requests. */
  lemma {:induction false} RunKeepsOwner(h: Hub, rs: seq<Request>, org: Id)
    requires HasOwner(h, org)
    ensures HasOwner(Run(h, rs), org)
    decreases |rs|
  {
    if rs != [] {
      StepKeepsOwner(h, rs[0], org);
      RunKeepsOwner(Apply(h, rs[0]), rs[1..], org);
    }
  }

  // Who moves the set of owners

  /** Every invite to ownership was minted by an owner. */
  ghost predicate OwnersInvite(h: Hub) {
    forall t :: t in h.invites && h.invites[t].role == OWNER ==> h.invites[t].byOwner
  }

  lemma StepKeepsOwnersInvite(h: Hub, r: Request)
    requires OwnersInvite(h)
    ensures OwnersInvite(Apply(h, r))
  {
  }

  /** The account behind a request, if it is one of those that act on members. */
  predicate ActsAsOwner(h: Hub, r: Request, org: Id) {
    match r
    case SetRole(cred, o, _, _) => o == org && cred.requester.account in OwnerSet(RosterOf(h, org))
    case Remove(cred, o, _) => o == org && cred.requester.account in OwnerSet(RosterOf(h, org))
    case AcceptInvite(token, _, _, _) =>
      && token in h.invites && h.invites[token].org == org && h.invites[token].role == OWNER
      && h.invites[token].byOwner
    case _ => false
  }

  /** The role the edge gives an account is the one in the roster. */
  lemma CurrentRole(h: Hub, account: Id, platform: bool, org: Id)
    ensures RequesterFor(h, account, platform).RoleIn(org) == OWNER <==> account in OwnerSet(RosterOf(h, org))
  {
  }

  lemma RoleChangeMovesOwners(h: Hub, cred: Credential, org: Id, target: Id, role: Role)
    requires cred.requester == RequesterFor(h, cred.requester.account, cred.requester.platform)
    requires AuthorizeRoleChange(cred.requester, org, RosterOf(h, org), target, role).None?
    ensures OwnerSet(RoleSet(RosterOf(h, org), target, role)) == OwnerSet(RosterOf(h, org))
            || cred.requester.account in OwnerSet(RosterOf(h, org))
  {
    CurrentRole(h, cred.requester.account, cred.requester.platform, org);
    SetRoleOwners(RosterOf(h, org), target, role);
  }

  lemma RemovalMovesOwners(h: Hub, cred: Credential, org: Id, target: Id)
    requires cred.requester == RequesterFor(h, cred.requester.account, cred.requester.platform)
    requires AuthorizeRemoval(cred.requester, org, RosterOf(h, org), target).None?
    ensures OwnerSet(Removed(RosterOf(h, org), target)) == OwnerSet(RosterOf(h, org))
            || cred.requester.account in OwnerSet(RosterOf(h, org))
  {
    CurrentRole(h, cred.requester.account, cred.requester.platform, org);
    RemovedOwners(RosterOf(h, org), target);
  }

  lemma JoiningMovesOwners(h: Hub, token: Id, account: Id, org: Id)
    requires token in h.invites && (h.invites[token].org != org || h.invites[token].role != OWNER)
    ensures OwnerSet(RosterOf(Accepted(h, token, account), org)) == OwnerSet(RosterOf(h, org))
  {
    var after := RosterOf(Accepted(h, token, account), org);
    assert forall a :: a in OwnerSet(after) <==> a in OwnerSet(RosterOf(h, org));
  }

  /** The set of owners moves only by the hand of an owner, or by an invitation an owner minted. */
  lemma OnlyOwnersMoveOwners(h: Hub, r: Request, org: Id)
    requires Current(h, r) && OwnersInvite(h)
    ensures OwnerSet(RosterOf(Apply(h, r), org)) != OwnerSet(RosterOf(h, org)) ==> ActsAsOwner(h, r, org)
  {
    match r
    case SetRole(cred, o, target, role) =>
      if o == org && AuthorizeRoleChange(cred.requester, org, RosterOf(h, org), target, role).None? {
        RoleChangeMovesOwners(h, cred, org, target, role);
      }
    case Remove(cred, o, target) =>
      if o == org && AuthorizeRemoval(cred.requester, org, RosterOf(h, org), target).None? {
        RemovalMovesOwners(h, cred, org, target);
      }
    case AcceptInvite(token, account, room, now) =>
      if token in h.invites && !ActsAsOwner(h, r, org) {
        JoiningMovesOwners(h, token, account, org);
      }
    case _ =>
  }

  /** An invitation makes an owner exactly when it is live and to ownership, whatever its minter is by now. */
  lemma InvitationMakesOwnerExactly(h: Hub, token: Id, account: Id, room: bool, now: int, org: Id)
    requires account !in RosterOf(h, org)
    ensures account in OwnerSet(RosterOf(Apply(h, AcceptInvite(token, account, room, now)), org)) <==>
      token in h.invites && Live(h.invites[token], now) && h.invites[token].org == org
      && h.invites[token].role == OWNER && room
  {
  }

  function InviteBy(h: Hub, a: Id, org: Id, token: Id, email: string, expiresAt: int): Hub {
    Apply(h, CreateInvite(Credential(RequesterFor(h, a, false), None), org, token, email, OWNER, true, expiresAt))
  }

  function RemoveBy(h: Hub, b: Id, org: Id, a: Id): Hub {
    Apply(h, Remove(Credential(RequesterFor(h, b, false), None), org, a))
  }

  lemma OwnerMayAdminister(h: Hub, a: Id, org: Id)
    requires org != "" && a in OwnerSet(RosterOf(h, org))
    ensures var req := RequesterFor(h, a, false); req.RoleIn(org) == OWNER && req.Can(ADMIN_ORG, org)
  {
    assert ADMIN_ORG in ORG_MINIMUM && ORG_MINIMUM[ADMIN_ORG] == ADMIN;
  }

  lemma OwnerInvites(h: Hub, a: Id, org: Id, token: Id, email: string, expiresAt: int)
    requires org != "" && a in OwnerSet(RosterOf(h, org)) && token !in h.invites
    ensures var i := InviteBy(h, a, org, token, email, expiresAt);
      && i.members == h.members && token in i.invites
      && i.invites[token] == Invite(org, email, OWNER, false, expiresAt, true)
  {
    OwnerMayAdminister(h, a, org);
  }

  lemma OwnerRemovesOther(h: Hub, a: Id, b: Id, org: Id)
    requires org != "" && a != b && org in h.members && h.members[org] == map[a := OWNER, b := OWNER]
    ensures var r := RemoveBy(h, b, org, a); RosterOf(r, org) == map[b := OWNER] && r.invites == h.invites
  {
    assert OwnerSet(RosterOf(h, org)) == {a, b} && |{a, b}| == 2;
    OwnerMayAdminister(h, b, org);
  }

  /** The case: a invites c to own the organization, b removes a, and c becomes its owner all the same. */
  lemma RemovedOwnersInvitationStands(org: Id, a: Id, b: Id, c: Id, token: Id, email: string, expiresAt: int, now: int)
    requires org != "" && a != b && c != b && now < expiresAt
    ensures var h := Hub(map[org := map[a := OWNER, b := OWNER]], map[]);
      var removed := RemoveBy(InviteBy(h, a, org, token, email, expiresAt), b, org, a);
      && a !in RosterOf(removed, org)
      && OwnerSet(RosterOf(Apply(removed, AcceptInvite(token, c, true, now)), org)) == {b, c}
  {
    var h := Hub(map[org := map[a := OWNER, b := OWNER]], map[]);
    var invited := InviteBy(h, a, org, token, email, expiresAt);
    OwnerInvites(h, a, org, token, email, expiresAt);
    OwnerRemovesOther(invited, a, b, org);
    var removed := RemoveBy(invited, b, org, a);
    JoinsAsOwner(removed, token, b, c, org, now);
  }

  lemma JoinsAsOwner(h: Hub, token: Id, b: Id, c: Id, org: Id, now: int)
    requires RosterOf(h, org) == map[b := OWNER] && c != b && token in h.invites && Live(h.invites[token], now)
    requires h.invites[token].org == org && h.invites[token].role == OWNER
    ensures OwnerSet(RosterOf(Apply(h, AcceptInvite(token, c, true, now)), org)) == {b, c}
  {
    assert RosterOf(Apply(h, AcceptInvite(token, c, true, now)), org) == map[b := OWNER, c := OWNER];
  }

  ghost predicate OwnersMoveOwners(h: Hub, rs: seq<Request>, org: Id)
    decreases |rs|
  {
    rs == [] ||
    (&& (OwnerSet(RosterOf(Apply(h, rs[0]), org)) != OwnerSet(RosterOf(h, org)) ==> ActsAsOwner(h, rs[0], org))
     && OwnersMoveOwners(Apply(h, rs[0]), rs[1..], org))
  }

  lemma {:induction false} RunMovesOwnersByOwners(h: Hub, rs: seq<Request>, org: Id)
    requires CurrentRun(h, rs) && OwnersInvite(h)
    ensures OwnersMoveOwners(h, rs, org)
    decreases |rs|
  {
    if rs != [] {
      OnlyOwnersMoveOwners(h, rs[0], org);
      StepKeepsOwnersInvite(h, rs[0]);
      RunMovesOwnersByOwners(Apply(h, rs[0]), rs[1..], org);
    }
  }

  // The gap between the check and the write

  /**
    The roster is read, the change is authorized, and the write follows on its own. Two owners who
    leave at once are both let go on the same roster, and nobody is left.
   */
  lemma TwoOwnersLeavingAtOnce(org: Id, a: Id, b: Id)
    requires a != "" && b != "" && a != b
    ensures var roster := map[a := OWNER, b := OWNER];
      var h := Hub(map[org := roster], map[]);
      && AuthorizeRemoval(RequesterFor(h, a, false), org, roster, a).None?
      && AuthorizeRemoval(RequesterFor(h, b, false), org, roster, b).None?
      && OwnerSet(Removed(Removed(roster, a), b)) == {}
  {
    var roster := map[a := OWNER, b := OWNER];
    assert OwnerSet(roster) == {a, b};
    assert |OwnerSet(roster)| == 2;
  }

  /** The same for two owners who step down. */
  lemma TwoOwnersSteppingDownAtOnce(org: Id, a: Id, b: Id)
    requires org != "" && a != b
    ensures var roster := map[a := OWNER, b := OWNER];
      var h := Hub(map[org := roster], map[]);
      && AuthorizeRoleChange(RequesterFor(h, a, false), org, roster, a, MEMBER).None?
      && AuthorizeRoleChange(RequesterFor(h, b, false), org, roster, b, MEMBER).None?
      && OwnerSet(RoleSet(RoleSet(roster, a, MEMBER), b, MEMBER)) == {}
  {
    var roster := map[a := OWNER, b := OWNER];
    assert OwnerSet(roster) == {a, b};
    assert |OwnerSet(roster)| == 2;
    var h := Hub(map[org := roster], map[]);
    assert RequesterFor(h, a, false).RoleIn(org) == OWNER && RequesterFor(h, b, false).RoleIn(org) == OWNER;
    assert RoleSet(RoleSet(roster, a, MEMBER), b, MEMBER) == map[a := MEMBER, b := MEMBER];
    assert ADMIN_ORG in ORG_MINIMUM && ORG_MINIMUM[ADMIN_ORG] == ADMIN;
  }

  /** A request that reads, decides and writes in one go, or the write of one that decided earlier, on whatever roster. */
  datatype Write = Whole(request: Request) | Landing(org: Id, target: Id, role: Option<Role>)

  function Written(roster: Roster, target: Id, role: Option<Role>): Roster {
    if role.Some? then RoleSet(roster, target, role.value) else Removed(roster, target)
  }

  function Land(h: Hub, w: Write): Hub {
    match w
    case Whole(r) => Apply(h, r)
    case Landing(org, target, role) => WithRoster(h, org, Written(RosterOf(h, org), target, role))
  }

  /** The write that lands now does not unmake the only owner. */
  predicate SparesLastOwner(h: Hub, w: Write, org: Id) {
    w.Landing? && w.org == org ==> OwnerSet(RosterOf(h, org)) != {w.target} || w.role == Some(OWNER)
  }

  lemma LandingKeepsOwnerExactly(h: Hub, w: Write, org: Id)
    requires HasOwner(h, org)
    ensures HasOwner(Land(h, w), org) <==> SparesLastOwner(h, w, org)
  {
    if w.Whole? {
      StepKeepsOwner(h, w.request, org);
    } else if w.org == org {
      var roster := RosterOf(h, org);
      if w.target in roster {
        WriteLosesLastOwnerExactly(roster, w.target, w.role);
      } else {
        assert Written(roster, w.target, w.role) == roster;
        assert w.target !in OwnerSet(roster) && w.target in {w.target};
      }
    }
  }

  ghost predicate OwnerThroughout(h: Hub, ws: seq<Write>, org: Id)
    decreases |ws|
  {
    HasOwner(h, org) && (ws == [] || OwnerThroughout(Land(h, ws[0]), ws[1..], org))
  }

  predicate AllSpare(h: Hub, ws: seq<Write>, org: Id)
    decreases |ws|
  {
    ws == [] || (SparesLastOwner(h, ws[0], org) && AllSpare(Land(h, ws[0]), ws[1..], org))
  }

  /**
    With every decision and its write apart, an organization keeps an owner throughout exactly when no
    removal or role change lands on the only owner left.
   */
  lemma {:induction false} DelayedWritesKeepOwnerExactly(h: Hub, ws: seq<Write>, org: Id)
    requires HasOwner(h, org)
    ensures OwnerThroughout(h, ws, org) <==> AllSpare(h, ws, org)
    decreases |ws|
  {
    if ws != [] {
      LandingKeepsOwnerExactly(h, ws[0], org);
      if SparesLastOwner(h, ws[0], org) {
        DelayedWritesKeepOwnerExactly(Land(h, ws[0]), ws[1..], org);
      } else {
        assert !OwnerThroughout(Land(h, ws[0]), ws[1..], org);
      }
    }
  }

  /** A decision taken on a roster with the owners it will meet always spares the last of them. */
  lemma FreshDecisionsSpare(h: Hub, req: Requester, org: Id, checked: Roster, target: Id, role: Role)
    requires OwnerSet(checked) == OwnerSet(RosterOf(h, org)) != {}
    ensures AuthorizeRemoval(req, org, checked, target).None? ==> SparesLastOwner(h, Landing(org, target, None), org)
    ensures AuthorizeRoleChange(req, org, checked, target, role).None? ==>
              SparesLastOwner(h, Landing(org, target, Some(role)), org)
  {
    if OwnerSet(checked) == {target} {
      assert target in OwnerSet(checked) && |OwnerSet(checked)| == 1;
    }
  }

  /** A stronger role may do whatever a weaker one may: promotion never takes a power away. */
  lemma StrongerRoleAllowsMore(weak: Requester, strong: Requester, org: Id, roster: Roster, target: Id, role: Role)
    requires weak.account == strong.account && weak.platform == strong.platform
    requires weak.unpartitioned == strong.unpartitioned && Rank(weak.RoleIn(org)) <= Rank(strong.RoleIn(org))
    ensures AuthorizeRoleChange(weak, org, roster, target, role).None?
      ==> AuthorizeRoleChange(strong, org, roster, target, role).None?
    ensures AuthorizeRemoval(weak, org, roster, target).None? ==> AuthorizeRemoval(strong, org, roster, target).None?
    ensures AuthorizeInvite(weak, org, role).None? ==> AuthorizeInvite(strong, org, role).None?
  {
    assert ADMIN_ORG in ORG_MINIMUM && ORG_MINIMUM[ADMIN_ORG] == ADMIN;
  }

  /** Whoever leaves an organization takes the reach of every token they minted there with them. */
  lemma LeavingEndsTokens(h: Hub, account: Id, platform: bool, grant: Grant, org: Id, c: Capability, project: Id)
    requires org != "" && org in h.members
    ensures var left := WithRoster(h, org, Removed(RosterOf(h, org), account));
      !Credential(RequesterFor(left, account, platform), Some(grant)).Can(c, org, project)
  {
    var left := WithRoster(h, org, Removed(RosterOf(h, org), account));
    assert org !in RolesOf(left, account);
  }
}
