/** Who may change an organization's members: the decisions, and the hub state they guard. */
module Membership {
  import opened Wrappers

  type Id = string
  type Role = string
  type Capability = string

  const OWNER: Role := "owner"
  const ADMIN: Role := "admin"
  const MEMBER: Role := "member"

  const ADMIN_ORG: Capability := "admin:hub.org"

  /** Capabilities that exist at the hub's own boundary. */
  const INSTALLATION: set<Capability> := {
    "admin:hub.account", "admin:hub.org", "admin:hub.staff", "admin:hub.skill", "admin:hub.model",
    "read:hub.org", "read:fleet.box", "admin:fleet.box", "read:hub.update", "admin:hub.update"
  }

  /** The installation capabilities a token may carry. */
  const INSTALLATION_GRANTABLE: set<Capability> := {
    "admin:hub.org", "admin:hub.staff", "admin:hub.skill", "admin:hub.model", "read:hub.org",
    "read:fleet.box", "admin:fleet.box"
  }

  /** The weakest role that carries each capability inside an organization. */
  const ORG_MINIMUM: map<Capability, Role> := map[
    "read:hub.org" := MEMBER, "admin:hub.org" := ADMIN, "admin:hub.staff" := ADMIN, "delete:hub.org" := OWNER,
    "read:hub.project" := MEMBER, "create:hub.project" := ADMIN, "delete:hub.project" := ADMIN,
    "admin:hub.project" := ADMIN, "read:fleet.connector" := MEMBER, "create:fleet.connector" := ADMIN,
    "admin:fleet.connector" := ADMIN, "exec:fleet.connector" := MEMBER, "read:fleet.terminal" := MEMBER,
    "attach:fleet.terminal" := MEMBER, "read:fleet.file" := MEMBER, "write:fleet.file" := MEMBER,
    "read:project.task" := MEMBER, "create:project.task" := MEMBER, "read:hub.template" := MEMBER,
    "read:hub.preset" := MEMBER, "admin:hub.preset" := ADMIN, "read:hub.event" := MEMBER
  ]

  datatype AuthzError = Forbidden | RoleUnknown | NotMember | OwnerOnly | LastOwner

  type Verdict = Option<AuthzError>

  /** Zero means unknown, which is never sufficient. */
  function Rank(r: Role): nat {
    if r == MEMBER then 1 else if r == ADMIN then 2 else if r == OWNER then 3 else 0
  }

  predicate AtLeast(r: Role, min: Role) {
    Rank(r) != 0 && Rank(r) >= Rank(min)
  }

  datatype Requester = Requester(account: Id, platform: bool, orgs: map<Id, Role>, unpartitioned: bool) {
    function RoleIn(org: Id): Role {
      if org in orgs then orgs[org] else ""
    }

    predicate Can(c: Capability, org: Id) {
      if unpartitioned && platform then true
      else if org == "" then platform && c in INSTALLATION
      else c in ORG_MINIMUM && AtLeast(RoleIn(org), ORG_MINIMUM[c])
    }
  }

  datatype Grant = Grant(org: Id, project: Id, installation: bool, scopes: seq<Capability>) {
    predicate Covers(o: Id, p: Id) {
      if installation then o == "" && p == ""
      else o != "" && org == o && (project == "" || project == p)
    }

    predicate Allows(c: Capability, o: Id, p: Id) {
      c in scopes && (installation ==> c in INSTALLATION_GRANTABLE) && Covers(o, p)
    }
  }

  /** A session has no grant; a token always carries one. */
  datatype Credential = Credential(requester: Requester, grant: Option<Grant>) {
    predicate Can(c: Capability, org: Id, project: Id) {
      requester.Can(c, org) && (grant.Some? ==> grant.value.Allows(c, org, project))
    }
  }

  type Roster = map<Id, Role>

  function OwnerSet(roster: Roster): set<Id> {
    set a | a in roster && roster[a] == OWNER
  }

  lemma CountOne(s: set<Id>, rest: set<Id>, a: Id)
    requires a in rest
    ensures |s * rest| == |s * (rest - {a})| + if a in s then 1 else 0
  {
    if a in s {
      assert s * rest == s * (rest - {a}) + {a};
    } else {
      assert s * rest == s * (rest - {a});
    }
  }

  /** The count Owners makes by walking the roster. */
  method Owners(roster: Roster) returns (n: nat)
    ensures n == |OwnerSet(roster)|
  {
    n := 0;
    var rest := roster.Keys;
    ghost var owners := OwnerSet(roster);
    assert owners * rest == owners;
    while rest != {}
      invariant rest <= roster.Keys
      invariant n + |owners * rest| == |owners|
      decreases |rest|
    {
      var a :| a in rest;
      CountOne(owners, rest, a);
      rest := rest - {a};
      if roster[a] == OWNER {
        n := n + 1;
      }
    }
    assert owners * rest == {};
  }

  function AuthorizeRoleChange(req: Requester, org: Id, roster: Roster, target: Id, newRole: Role): Verdict {
    if Rank(newRole) == 0 then Some(RoleUnknown)
    else if !req.Can(ADMIN_ORG, org) then Some(Forbidden)
    else if target !in roster then Some(NotMember)
    else if roster[target] == newRole then None
    else if (roster[target] == OWNER || newRole == OWNER) && req.RoleIn(org) != OWNER then Some(OwnerOnly)
    else if roster[target] == OWNER && |OwnerSet(roster)| == 1 then Some(LastOwner)
    else None
  }

  function AuthorizeInvite(req: Requester, org: Id, role: Role): Verdict {
    if Rank(role) == 0 then Some(RoleUnknown)
    else if !req.Can(ADMIN_ORG, org) then Some(Forbidden)
    else if role == OWNER && req.RoleIn(org) != OWNER then Some(OwnerOnly)
    else None
  }

  function AuthorizeRemoval(req: Requester, org: Id, roster: Roster, target: Id): Verdict {
    var self := req.account != "" && req.account == target;
    if !self && !req.Can(ADMIN_ORG, org) then Some(Forbidden)
    else if target !in roster then Some(NotMember)
    else if roster[target] == OWNER && !self && req.RoleIn(org) != OWNER then Some(OwnerOnly)
    else if roster[target] == OWNER && |OwnerSet(roster)| == 1 then Some(LastOwner)
    else None
  }

  // The hub's state and the requests on it

  /** `byOwner` records whether the inviter owned the organization when the invite was minted. */
  datatype Invite = Invite(org: Id, email: string, role: Role, used: bool, expiresAt: int, byOwner: bool)

  datatype Hub = Hub(members: map<Id, Roster>, invites: map<Id, Invite>)

  function RosterOf(h: Hub, org: Id): Roster {
    if org in h.members then h.members[org] else map[]
  }

  /** AccountOrgRoles: what an account is, in every organization, as of now. */
  function RolesOf(h: Hub, account: Id): map<Id, Role> {
    map o | o in h.members && account in h.members[o] :: h.members[o][account]
  }

  /** The requester the edge builds for an account. */
  function RequesterFor(h: Hub, account: Id, platform: bool): Requester {
    Requester(account, platform, RolesOf(h, account), false)
  }

  /** Organization administration by a token needs the verb by name. */
  predicate TokenRefused(cred: Credential, org: Id) {
    cred.grant.Some? && !cred.Can(ADMIN_ORG, org, "")
  }

  function RoleSet(roster: Roster, target: Id, role: Role): Roster {
    if target in roster then roster[target := role] else roster
  }

  function Removed(roster: Roster, target: Id): Roster {
    map a | a in roster && a != target :: roster[a]
  }

  function WithRoster(h: Hub, org: Id, roster: Roster): Hub {
    if org in h.members then h.(members := h.members[org := roster]) else h
  }

  datatype Request =
    | SetRole(cred: Credential, org: Id, target: Id, role: Role)
    | Remove(cred: Credential, org: Id, target: Id)
    | CreateInvite(cred: Credential, org: Id, token: Id, email: string, role: Role, room: bool, expiresAt: int)
    | AcceptInvite(token: Id, account: Id, room: bool, now: int)
    | RevokeInvite(org: Id, token: Id)

  predicate Live(i: Invite, now: int) {
    !i.used && i.expiresAt > now
  }

  predicate Retires(i: Invite, org: Id, email: string) {
    i.org == org && i.email == email && !i.used
  }

  function Invited(h: Hub, cred: Credential, org: Id, token: Id, email: string, role: Role, expiresAt: int): Hub {
    var minted := Invite(org, email, role, false, expiresAt, cred.requester.RoleIn(org) == OWNER);
    var retired := map t | t in h.invites ::
      if Retires(h.invites[t], org, email) then h.invites[t].(used := true) else h.invites[t];
    h.(invites := retired[token := minted])
  }

  function Accepted(h: Hub, token: Id, account: Id): Hub
    requires token in h.invites
  {
    var i := h.invites[token];
    var roster := RosterOf(h, i.org);
    var joined := if account in roster then roster else roster[account := i.role];
    Hub(h.members[i.org := joined], h.invites[token := i.(used := true)])
  }

  function Apply(h: Hub, r: Request): Hub {
    match r
    case SetRole(cred, org, target, role) =>
      if TokenRefused(cred, org) || AuthorizeRoleChange(cred.requester, org, RosterOf(h, org), target, role).Some?
      then h
      else WithRoster(h, org, RoleSet(RosterOf(h, org), target, role))
    case Remove(cred, org, target) =>
      if TokenRefused(cred, org) || AuthorizeRemoval(cred.requester, org, RosterOf(h, org), target).Some? then h
      else WithRoster(h, org, Removed(RosterOf(h, org), target))
    case CreateInvite(cred, org, token, email, role, room, expiresAt) =>
      if !cred.Can(ADMIN_ORG, org, "") || AuthorizeInvite(cred.requester, org, role).Some? || !room || token in h.invites
      then h
      else Invited(h, cred, org, token, email, role, expiresAt)
    case AcceptInvite(token, account, room, now) =>
      if token !in h.invites || !Live(h.invites[token], now) then h
      else if account !in RosterOf(h, h.invites[token].org) && !room then h
      else Accepted(h, token, account)
    case RevokeInvite(org, token) =>
      if token in h.invites && h.invites[token].org == org && !h.invites[token].used
      then h.(invites := h.invites[token := h.invites[token].(used := true)])
      else h
  }

  /** The request comes from an account whose roles were read from this very state. */
  ghost predicate Current(h: Hub, r: Request) {
    match r
    case SetRole(cred, _, _, _) => cred.requester == RequesterFor(h, cred.requester.account, cred.requester.platform)
    case Remove(cred, _, _) => cred.requester == RequesterFor(h, cred.requester.account, cred.requester.platform)
    case CreateInvite(cred, _, _, _, _, _, _) =>
      cred.requester == RequesterFor(h, cred.requester.account, cred.requester.platform)
    case _ => true
  }

  function Run(h: Hub, rs: seq<Request>): Hub
    decreases |rs|
  {
    if rs == [] then h else Run(Apply(h, rs[0]), rs[1..])
  }

  ghost predicate CurrentRun(h: Hub, rs: seq<Request>)
    decreases |rs|
  {
    rs == [] || (Current(h, rs[0]) && CurrentRun(Apply(h, rs[0]), rs[1..]))
  }
}
