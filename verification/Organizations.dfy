/**
 Membership. Each locked transaction, and each account deletion with the trigger guarding it, is one
 step. `OrganizationService` performs the checks and writes in the service's order.
 */
module Organizations {
  import opened Common

  datatype Role = Owner | Admin | Member {
    /** Whether this role may grant, change or remove the other. */
    predicate Reaches(other: Role) {
      match this
      case Owner => true
      case Admin => other.Admin? || other.Member?
      case Member => false
    }

    predicate IsManager() { Owner? || Admin? }
  }

  datatype Error = NotFound | NotAMember | InsufficientRole | LastOwner | AccountNotFound | MemberNotFound | Internal

  /** Accounts, and each organization's members with their roles. */
  datatype State = State(accounts: set<nat>, members: map<nat, map<nat, Role>>)

  function Init(): State {
    State({}, map[])
  }

  datatype Command =
    | Register(user: nat)
    | Create(org: nat, actor: nat)
    | Delete(org: nat, actor: nat)
    | AddMember(org: nat, user: nat, role: Role, actor: nat)
    | SetRole(org: nat, user: nat, role: Role, actor: nat)
    | RemoveMember(org: nat, user: nat, actor: nat)
    | DeleteAccount(user: nat)

  function Owners(members: map<nat, Role>): set<nat> {
    set u | u in members && members[u].Owner?
  }

  /** What the trigger looks for: organizations in which nobody else is an owner. */
  function OrphanedBy(s: State, user: nat): set<nat> {
    set org | org in s.members && user in s.members[org] && s.members[org][user].Owner?
              && forall other :: other in s.members[org] && s.members[org][other].Owner? ==> other == user
  }

  function Granted(members: map<nat, Role>, user: nat, role: Role): map<nat, Role> {
    members[user := role]
  }

  function WithMember(s: State, org: nat, user: nat, role: Role): State
    requires org in s.members
  {
    s.(members := s.members[org := Granted(s.members[org], user, role)])
  }

  function WithoutMember(s: State, org: nat, user: nat): State
    requires org in s.members
  {
    s.(members := s.members[org := s.members[org] - {user}])
  }

  function WithoutAccount(s: State, user: nat): State {
    State(s.accounts - {user}, map org | org in s.members :: s.members[org] - {user})
  }

  /** Whether acting on `current` and `role` is within the actor's standing. */
  predicate MayManage(actor: Role, current: Option<Role>, role: Option<Role>) {
    actor.IsManager() && (current.Some? ==> actor.Reaches(current.value)) && (role.Some? ==> actor.Reaches(role.value))
  }

  predicate LosesItsOnlyOwner(members: map<nat, Role>, user: nat) {
    user in members && members[user].Owner? && |Owners(members)| <= 1
  }

  function RoleOf(members: map<nat, Role>, user: nat): Option<Role> {
    if user in members then Some(members[user]) else None
  }

  /** The outcome of a command: the state it leaves, or why it was refused. */
  function Decide(s: State, command: Command): Result<State, Error> {
    match command
    case Register(user) => Ok(s.(accounts := s.accounts + {user}))
    case Create(org, actor) =>
      if org in s.members || actor !in s.accounts then Err(Internal)
      else Ok(s.(members := s.members[org := map[actor := Owner]]))
    case Delete(org, actor) =>
      if org !in s.members then Err(NotFound)
      else if actor !in s.members[org] then Err(NotAMember)
      else if !s.members[org][actor].Owner? then Err(InsufficientRole)
      else Ok(s.(members := s.members - {org}))
    case AddMember(org, user, role, actor) =>
      if user !in s.accounts then Err(AccountNotFound)
      else if org !in s.members then Err(NotFound)
      else if actor !in s.members[org] then Err(NotAMember)
      else if !MayManage(s.members[org][actor], RoleOf(s.members[org], user), Some(role)) then Err(InsufficientRole)
      else if RoleOf(s.members[org], user) != Some(role) && LosesItsOnlyOwner(s.members[org], user) then Err(LastOwner)
      else Ok(WithMember(s, org, user, role))
    case SetRole(org, user, role, actor) =>
      if org !in s.members then Err(NotFound)
      else if actor !in s.members[org] then Err(NotAMember)
      else if !s.members[org][actor].IsManager() then Err(InsufficientRole)
      else if user !in s.members[org] then Err(MemberNotFound)
      else if !MayManage(s.members[org][actor], Some(s.members[org][user]), Some(role)) then Err(InsufficientRole)
      else if s.members[org][user] != role && LosesItsOnlyOwner(s.members[org], user) then Err(LastOwner)
      else Ok(WithMember(s, org, user, role))
    case RemoveMember(org, user, actor) =>
      if org !in s.members then Err(NotFound)
      else if actor !in s.members[org] then Err(NotAMember)
      else if user !in s.members[org] then Err(MemberNotFound)
      else if user != actor
          && !MayManage(s.members[org][actor], Some(s.members[org][user]), None) then Err(InsufficientRole)
      else if LosesItsOnlyOwner(s.members[org], user) then Err(LastOwner)
      else Ok(WithoutMember(s, org, user))
    case DeleteAccount(user) =>
      if OrphanedBy(s, user) != {} then Err(LastOwner) else Ok(WithoutAccount(s, user))
  }

  function Apply(s: State, command: Command): State {
    match Decide(s, command)
    case Ok(next) => next
    case Err(_) => s
  }

  function Run(s: State, commands: seq<Command>): State
    decreases |commands|
  {
    if commands == [] then s else Run(Apply(s, commands[0]), commands[1..])
  }

  // ---------- What the rules say ----------

  /** Who may give a role, or take or change one: an owner any, an admin any but the owner's. */
  predicate HasStanding(s: State, org: nat, actor: nat, role: Role) {
    && org in s.members && actor in s.members[org]
    && (s.members[org][actor] == Owner || (s.members[org][actor] == Admin && role != Owner))
  }

  /** Which commands get as far as the last-owner rule. */
  lemma PassesExactly(s: State, org: nat, user: nat, role: Role, actor: nat)
    ensures var passes := (command: Command) => Decide(s, command).Ok? || Decide(s, command) == Err(LastOwner);
            && (passes(AddMember(org, user, role, actor)) <==>
                  && user in s.accounts && HasStanding(s, org, actor, role)
                  && (user in s.members[org] ==> HasStanding(s, org, actor, s.members[org][user])))
            && (passes(SetRole(org, user, role, actor)) <==>
                  && HasStanding(s, org, actor, role) && user in s.members[org]
                  && HasStanding(s, org, actor, s.members[org][user]))
            && (passes(RemoveMember(org, user, actor)) <==>
                  && org in s.members && user in s.members[org] && actor in s.members[org]
                  && (user == actor || HasStanding(s, org, actor, s.members[org][user])))
            && (Decide(s, Delete(org, actor)).Ok? <==>
                  org in s.members && actor in s.members[org] && s.members[org][actor] == Owner)
            && (Decide(s, Create(org, actor)).Ok? <==> org !in s.members && actor in s.accounts)
  {
  }

  function RoleIn(s: State, org: nat, user: nat): Option<Role> {
    if org in s.members then RoleOf(s.members[org], user) else None
  }

  /** What a command that goes through does to anybody's role anywhere, and to nothing else. */
  lemma RolesAfter(s: State, command: Command, org: nat, user: nat)
    requires Decide(s, command).Ok?
    ensures var s' := Apply(s, command);
            RoleIn(s', org, user) ==
              match command
              case Register(_) => RoleIn(s, org, user)
              case Create(o, actor) =>
                if o == org then (if user == actor then Some(Owner) else None) else RoleIn(s, org, user)
              case Delete(o, _) => if o == org then None else RoleIn(s, org, user)
              case AddMember(o, u, role, _) => if o == org && u == user then Some(role) else RoleIn(s, org, user)
              case SetRole(o, u, role, _) => if o == org && u == user then Some(role) else RoleIn(s, org, user)
              case RemoveMember(o, u, _) => if o == org && u == user then None else RoleIn(s, org, user)
              case DeleteAccount(u) => if u == user then None else RoleIn(s, org, user)
    ensures var s' := Apply(s, command);
            && (user in s'.accounts <==>
                  (user in s.accounts || command == Register(user)) && command != DeleteAccount(user))
            && (org in s'.members <==>
                  (org in s.members || (command.Create? && command.org == org))
                  && !(command.Delete? && command.org == org))
  {
  }

  // ---------- Always an owner ----------

  ghost predicate HasOwner(members: map<nat, Role>) {
    exists u :: u in members && members[u].Owner?
  }

  /** Every organization has an owner, and its members are accounts. */
  ghost predicate Owned(s: State) {
    && (forall org :: org in s.members ==> HasOwner(s.members[org]))
    && (forall org, user :: org in s.members && user in s.members[org] ==> user in s.accounts)
  }

  /** Counting owners says what it is meant to: one or none left means nobody else. */
  lemma OnlyOwner(members: map<nat, Role>, user: nat)
    ensures LosesItsOnlyOwner(members, user) <==>
              && user in members && members[user].Owner?
              && forall other :: other in members && members[other].Owner? ==> other == user
  {
    if user in members && members[user].Owner? {
      if forall other :: other in members && members[other].Owner? ==> other == user {
        assert Owners(members) == {user};
      } else {
        var other :| other in members && members[other].Owner? && other != user;
        SubsetSize({user, other}, Owners(members));
      }
    }
  }

  lemma SeveralOwners(members: map<nat, Role>)
    ensures |Owners(members)| > 1 <==>
              exists a, b :: a in members && b in members && a != b && members[a].Owner? && members[b].Owner?
  {
    if |Owners(members)| > 1 {
      var a :| a in Owners(members);
      OnlyOwner(members, a);
      var b :| b in members && members[b].Owner? && b != a;
    }
    if a, b :| a in members && b in members && a != b && members[a].Owner? && members[b].Owner? {
      OnlyOwner(members, a);
    }
  }

  /** The membership an authorised command would write, were the last-owner rule not there. */
  function Unguarded(s: State, command: Command): State {
    match command
    case AddMember(org, user, role, _) => if org in s.members then WithMember(s, org, user, role) else s
    case SetRole(org, user, role, _) => if org in s.members then WithMember(s, org, user, role) else s
    case RemoveMember(org, user, _) => if org in s.members then WithoutMember(s, org, user) else s
    case DeleteAccount(user) => WithoutAccount(s, user)
    case _ => Apply(s, command)
  }

  predicate Guarded(command: Command) {
    command.AddMember? || command.SetRole? || command.RemoveMember? || command.DeleteAccount?
  }

  lemma MembershipGuardIsExact(s: State, command: Command)
    requires Owned(s) && (command.AddMember? || command.SetRole? || command.RemoveMember?)
    requires Decide(s, command).Ok? || Decide(s, command).error.LastOwner?
    ensures Decide(s, command).Ok? <==> HasOwner(Unguarded(s, command).members[command.org])
    ensures Decide(s, command).Ok? ==> Apply(s, command) == Unguarded(s, command)
  {
    var before, after, user := s.members[command.org], Unguarded(s, command).members[command.org], command.user;
    OnlyOwner(before, user);
    assert HasOwner(before);
    if Decide(s, command).Ok? {
      if user in after && after[user].Owner? {
        assert HasOwner(after);
      } else if user in before && before[user].Owner? {
        var other :| other in before && before[other].Owner? && other != user;
        assert other in after && after[other].Owner?;
      } else {
        var owner :| owner in before && before[owner].Owner?;
        assert owner in after && after[owner].Owner?;
      }
    }
  }

  lemma DeletionGuardIsExact(s: State, user: nat)
    requires Owned(s)
    ensures Decide(s, DeleteAccount(user)).Ok? <==> forall org :: org in s.members ==> HasOwner(s.members[org] - {user})
  {
    forall org | org in s.members ensures org in OrphanedBy(s, user) <==> !HasOwner(s.members[org] - {user}) {
      var members := s.members[org];
      assert HasOwner(members);
      if owner :| owner in members && members[owner].Owner? && owner != user {
        assert owner in members - {user} && (members - {user})[owner].Owner?;
      }
    }
  }

  /**
   The last-owner rule refuses exactly what it must: a command that passes every other check goes
   through if and only if every organization still has an owner afterwards.
   */
  lemma LastOwnerRuleIsExact(s: State, command: Command)
    requires Owned(s) && Guarded(command)
    requires Decide(s, command).Ok? || Decide(s, command).error.LastOwner?
    ensures Decide(s, command).Ok? <==> forall org :: org in Unguarded(s, command).members ==>
        HasOwner(Unguarded(s, command).members[org])
    ensures Decide(s, command).Ok? ==> Apply(s, command) == Unguarded(s, command)
  {
    if command.DeleteAccount? {
      DeletionGuardIsExact(s, command.user);
      assert forall org :: org in s.members ==> Unguarded(s, command).members[org] == s.members[org] - {command.user};
    } else {
      MembershipGuardIsExact(s, command);
      assert command.org in Unguarded(s, command).members;
      assert forall org :: org in s.members && org != command.org ==>
                             Unguarded(s, command).members[org] == s.members[org];
    }
  }

  lemma StepKeepsOwned(s: State, command: Command)
    requires Owned(s)
    ensures Owned(Apply(s, command))
  {
    if Guarded(command) && Decide(s, command).Ok? {
      LastOwnerRuleIsExact(s, command);
    } else if command.Create? && Decide(s, command).Ok? {
      assert command.actor in Apply(s, command).members[command.org];
    }
  }

  lemma {:induction false} RunKeepsOwned(s: State, commands: seq<Command>)
    requires Owned(s)
    ensures Owned(Run(s, commands))
    decreases |commands|
  {
    if commands != [] {
      StepKeepsOwned(s, commands[0]);
      hide Apply;
      RunKeepsOwned(Apply(s, commands[0]), commands[1..]);
    }
  }

  /** Whatever anybody attempts, in any order, every organization has an owner in every state. */
  lemma EveryOrganizationHasAnOwner(commands: seq<Command>, org: nat)
    requires org in Run(Init(), commands).members
    ensures Owners(Run(Init(), commands).members[org]) != {}
  {
    RunKeepsOwned(Init(), commands);
    var members := Run(Init(), commands).members[org];
    assert HasOwner(members);
    var owner :| owner in members && members[owner].Owner?;
    assert owner in Owners(members);
  }

  // ---------- Authority ----------

  /** An owner of that organization gives the command, or an account is deleted. */
  predicate OwnerActs(s: State, command: Command, org: nat) {
    || command.DeleteAccount?
    || (!command.Register? && command.org == org && org in s.members
        && command.actor in s.members[org] && s.members[org][command.actor].Owner?)
  }

  lemma OnlyOwnersTouchOwners(s: State, command: Command, org: nat)
    requires org in s.members && !OwnerActs(s, command, org)
    ensures org in Apply(s, command).members
    ensures Owners(Apply(s, command).members[org]) == Owners(s.members[org])
  {
  }

  predicate OwnerActsDuring(s: State, commands: seq<Command>, org: nat)
    decreases |commands|
  {
    commands != [] && (OwnerActs(s, commands[0], org) || OwnerActsDuring(Apply(s, commands[0]), commands[1..], org))
  }

  /**
   In a run in which no owner of an organization acts and no account is deleted, its owners stay
   exactly who they were, whatever admins, members and outsiders attempt; nor can it be deleted.
   */
  lemma {:induction false} OwnersAreUntouchable(s: State, commands: seq<Command>, org: nat)
    requires org in s.members && !OwnerActsDuring(s, commands, org)
    ensures org in Run(s, commands).members
    ensures Owners(Run(s, commands).members[org]) == Owners(s.members[org])
    decreases |commands|
  {
    hide Apply, Owners;
    if commands != [] {
      OnlyOwnersTouchOwners(s, commands[0], org);
      OwnersAreUntouchable(Apply(s, commands[0]), commands[1..], org);
    }
  }

  /**
   A role only changes at the hands of somebody who reaches it: whoever gains, changes or loses a
   role other than by leaving or by their account being deleted, the actor managed the organization
   and reached both the role held before and the role held after.
   */
  lemma ChangesAreAuthorised(s: State, command: Command, org: nat, user: nat)
    requires org in s.members && org in Apply(s, command).members
    requires RoleOf(Apply(s, command).members[org], user) != RoleOf(s.members[org], user)
    ensures command.DeleteAccount? || (command.RemoveMember? && command.actor == user)
            || (&& !command.Register? && command.actor in s.members[org]
                && MayManage(s.members[org][command.actor], RoleOf(s.members[org], user),
                             RoleOf(Apply(s, command).members[org], user)))
  {
  }

  // ---------- The service ----------

  class OrganizationService {
    var accounts: set<nat>
    var members: map<nat, map<nat, Role>>

    constructor ()
      ensures StateOf() == Init()
    {
      accounts, members := {}, map[];
    }

    function StateOf(): State reads this {
      State(accounts, members)
    }

    /** A new organization, owned from the start. */
    method CreateOrganization(org: nat, actor: nat)
      requires org !in members && actor in accounts
      modifies this
      ensures StateOf() == Apply(old(StateOf()), Create(org, actor))
      ensures members == old(members)[org := map[actor := Owner]] && accounts == old(accounts)
    {
      members := members[org := map[actor := Owner]];
    }

    method DeleteOrganization(org: nat, actor: nat) returns (result: Result<(), Error>)
      modifies this
      ensures var decided := Decide(old(StateOf()), Delete(org, actor));
              && (result.Ok? <==> decided.Ok?) && (result.Err? ==> decided == Err(result.error))
      ensures StateOf() == Apply(old(StateOf()), Delete(org, actor))
      ensures result.Ok? ==> members == old(members) - {org}
    {
      if org !in members {
        return Err(NotFound);
      }
      if actor !in members[org] {
        return Err(NotAMember);
      }
      if !members[org][actor].Owner? {
        return Err(InsufficientRole);
      }
      members := members - {org};
      result := Ok(());
    }

    /** Whether two different members own the organization. */
    method EnsureAnotherOwner(org: nat) returns (ok: bool)
      requires org in members
      ensures ok <==> exists a, b :: a in members[org] && b in members[org] && a != b
                                     && members[org][a].Owner? && members[org][b].Owner?
      ensures forall user :: user in members[org] && members[org][user].Owner? ==>
                (LosesItsOnlyOwner(members[org], user) <==> !ok)
    {
      ok := |Owners(members[org])| > 1;
      SeveralOwners(members[org]);
    }

    method AddMemberTo(org: nat, user: nat, role: Role, actor: nat) returns (result: Result<bool, Error>)
      modifies this
      ensures var decided := Decide(old(StateOf()), AddMember(org, user, role, actor));
              && (result.Ok? <==> decided.Ok?) && (result.Err? ==> decided == Err(result.error))
      ensures StateOf() == Apply(old(StateOf()), AddMember(org, user, role, actor))
      ensures result.Ok? ==>
                && org in old(members) && result.value == (user !in old(members)[org])
                && forall o, u :: RoleIn(StateOf(), o, u)
                                  == if o == org && u == user then Some(role) else RoleIn(old(StateOf()), o, u)
    {
      if user !in accounts {
        return Err(AccountNotFound);
      }
      if org !in members {
        return Err(NotFound);
      }
      if actor !in members[org] {
        return Err(NotAMember);
      }
      var actorRole := members[org][actor];
      if !actorRole.IsManager() || !actorRole.Reaches(role) {
        return Err(InsufficientRole);
      }
      var existing := RoleOf(members[org], user);
      if existing.Some? {
        if !actorRole.Reaches(existing.value) {
          return Err(InsufficientRole);
        }
        if existing.value == role {
          assert Granted(members[org], user, role) == members[org] && members[org := members[org]] == members;
          return Ok(false);
        }
        if existing.value.Owner? {
          var ok := EnsureAnotherOwner(org);
          if !ok {
            return Err(LastOwner);
          }
        }
      }
      members := members[org := Granted(members[org], user, role)];
      result := Ok(existing.None?);
    }

    method SetMemberRole(org: nat, user: nat, role: Role, actor: nat) returns (result: Result<Role, Error>)
      modifies this
      ensures var decided := Decide(old(StateOf()), SetRole(org, user, role, actor));
              && (result.Ok? <==> decided.Ok?) && (result.Err? ==> decided == Err(result.error))
      ensures StateOf() == Apply(old(StateOf()), SetRole(org, user, role, actor))
      ensures result.Ok? ==>
                && org in members && user in members[org] && members[org][user] == role == result.value
                && forall o, u :: RoleIn(StateOf(), o, u)
                                  == if o == org && u == user then Some(role) else RoleIn(old(StateOf()), o, u)
    {
      if org !in members {
        return Err(NotFound);
      }
      if actor !in members[org] {
        return Err(NotAMember);
      }
      var actorRole := members[org][actor];
      if !actorRole.IsManager() {
        return Err(InsufficientRole);
      }
      if user !in members[org] {
        return Err(MemberNotFound);
      }
      var current := members[org][user];
      if !actorRole.Reaches(current) || !actorRole.Reaches(role) {
        return Err(InsufficientRole);
      }
      if current == role {
        assert Granted(members[org], user, role) == members[org] && members[org := members[org]] == members;
        return Ok(role);
      }
      if current.Owner? {
        var ok := EnsureAnotherOwner(org);
        if !ok {
          return Err(LastOwner);
        }
      }
      members := members[org := Granted(members[org], user, role)];
      result := Ok(role);
    }

    method Remove(org: nat, user: nat, actor: nat) returns (result: Result<(), Error>)
      modifies this
      ensures var decided := Decide(old(StateOf()), RemoveMember(org, user, actor));
              && (result.Ok? <==> decided.Ok?) && (result.Err? ==> decided == Err(result.error))
      ensures StateOf() == Apply(old(StateOf()), RemoveMember(org, user, actor))
      ensures result.Ok? ==> org in old(members) && members == old(members)[org := old(members)[org] - {user}]
    {
      if org !in members {
        return Err(NotFound);
      }
      if actor !in members[org] {
        return Err(NotAMember);
      }
      if user !in members[org] {
        return Err(MemberNotFound);
      }
      var actorRole, current := members[org][actor], members[org][user];
      if user != actor && (!actorRole.IsManager() || !actorRole.Reaches(current)) {
        return Err(InsufficientRole);
      }
      if current.Owner? {
        var ok := EnsureAnotherOwner(org);
        if !ok {
          return Err(LastOwner);
        }
      }
      members := members[org := members[org] - {user}];
      result := Ok(());
    }
  }
}
