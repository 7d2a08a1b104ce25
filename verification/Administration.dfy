/**
 Instance administration: who may sign in, who administers, and why an instance that has an active
 administrator never loses its last one. Each operation is one step.

 `signedIn` says that the account holds a session that is neither revoked nor expired.
 */
module Administration {
  import opened Common
  import opened Strings

  datatype Status = Pending | Active | Disabled

  const ADMIN := "admin"
  const USER := "user"

  datatype Account = Account(email: string, status: Status, verified: bool, roles: set<string>, signedIn: bool)

  datatype State = State(accounts: map<nat, Account>, knownRoles: set<string>, letters: Letters)

  function Init(letters: Letters): State {
    State(map[], {ADMIN, USER}, letters)
  }

  datatype Error =
    | Unauthorized | Forbidden | SelfTargeted | NotFound | UnknownRole | LastAdministrator | ConfirmationMismatch
    | LastOwner | EmailNotVerified | Conflict

  /** The verification setting is read at registration and at sign-in. */
  datatype Command =
    | Register(user: nat, email: string, required: bool)
    | VerifyEmail(user: nat)
    | SignIn(user: nat, required: bool)
    | SessionsEnd(user: nat)
    | GrantRole(user: nat, role: string)
    | SetStatus(target: nat, enable: bool, actor: nat)
    | SetRoles(target: nat, roles: set<string>, actor: nat)
    | DeleteAccount(target: nat, confirmEmail: string, ownsAlone: bool, actor: nat)

  predicate ActiveAdmin(a: Account) {
    a.status.Active? && ADMIN in a.roles
  }

  function ActiveAdmins(s: State): set<nat> {
    set u | u in s.accounts && ActiveAdmin(s.accounts[u])
  }

  /** What an authenticated request resolves to: a live session of an account that is not disabled. */
  predicate Authenticated(s: State, user: nat) {
    user in s.accounts && s.accounts[user].signedIn && !s.accounts[user].status.Disabled?
  }

  function With(s: State, user: nat, account: Account): State {
    s.(accounts := s.accounts[user := account])
  }

  /** Every administrative route asks for an authenticated administrator first. */
  function Gate(s: State, actor: nat): Option<Error> {
    if !Authenticated(s, actor) then Some(Unauthorized)
    else if ADMIN !in s.accounts[actor].roles then Some(Forbidden)
    else None
  }

  function DecideStatus(s: State, target: nat, enable: bool, actor: nat): Result<State, Error> {
    if target == actor then Err(SelfTargeted)
    else if target !in s.accounts then Err(NotFound)
    else
      var a := s.accounts[target];
      Ok(With(s, target, if enable then a.(status := Active) else a.(status := Disabled, signedIn := false)))
  }

  function RolesHeld(s: State, user: nat): set<string> {
    if user in s.accounts then s.accounts[user].roles else {}
  }

  /** Losing the role is refused to the only active administrator. */
  function DecideRoles(s: State, target: nat, roles: set<string>): Result<State, Error> {
    if !(roles <= s.knownRoles) then Err(UnknownRole)
    else if ADMIN in RolesHeld(s, target) && ADMIN !in roles && ActiveAdmins(s) == {target} then Err(LastAdministrator)
    else if target !in s.accounts then Err(NotFound)
    else Ok(With(s, target, s.accounts[target].(roles := roles)))
  }

  /** `ownsAlone`: the database refuses because the account is some organization's last owner. */
  function DecideDelete(s: State, target: nat, confirmEmail: string, ownsAlone: bool, actor: nat)
    : Result<State, Error>
  {
    if target == actor then Err(SelfTargeted)
    else if target !in s.accounts then Err(NotFound)
    else if s.accounts[target].email != NormalizeEmail(confirmEmail, s.letters) then Err(ConfirmationMismatch)
    else if ownsAlone then Err(LastOwner)
    else Ok(s.(accounts := s.accounts - {target}))
  }

  /** The password is right and the account not locked; what is left is its state. */
  function DecideSignIn(s: State, user: nat, required: bool): Result<State, Error> {
    if user !in s.accounts || s.accounts[user].status.Disabled? then Err(Unauthorized)
    else if required && !s.accounts[user].verified then Err(EmailNotVerified)
    else Ok(With(s, user, s.accounts[user].(signedIn := true)))
  }

  function DecideGrant(s: State, user: nat, role: string): Result<State, Error> {
    if role !in s.knownRoles then Err(UnknownRole)
    else if user !in s.accounts then Err(NotFound)
    else Ok(With(s, user, s.accounts[user].(roles := s.accounts[user].roles + {role})))
  }

  function DecideVerify(s: State, user: nat): Result<State, Error> {
    if user !in s.accounts then Err(NotFound)
    else
      var a := s.accounts[user];
      Ok(With(s, user, a.(verified := true, status := if a.status.Pending? then Active else a.status)))
  }

  function Decide(s: State, command: Command): Result<State, Error> {
    match command
    case Register(user, email, required) =>
      if user in s.accounts then Err(Conflict)
      else
        var status := if required then Pending else Active;
        Ok(With(s, user, Account(NormalizeEmail(email, s.letters), status, false, {USER}, false)))
    case VerifyEmail(user) => DecideVerify(s, user)
    case SignIn(user, required) => DecideSignIn(s, user, required)
    case SessionsEnd(user) =>
      if user in s.accounts then Ok(With(s, user, s.accounts[user].(signedIn := false))) else Err(NotFound)
    case GrantRole(user, role) => DecideGrant(s, user, role)
    case SetStatus(target, enable, actor) =>
      if Gate(s, actor).Some? then Err(Gate(s, actor).value) else DecideStatus(s, target, enable, actor)
    case SetRoles(target, roles, actor) =>
      if Gate(s, actor).Some? then Err(Gate(s, actor).value) else DecideRoles(s, target, roles)
    case DeleteAccount(target, confirmEmail, ownsAlone, actor) =>
      if Gate(s, actor).Some? then Err(Gate(s, actor).value)
      else DecideDelete(s, target, confirmEmail, ownsAlone, actor)
  }

  function Apply(s: State, command: Command): State {
    match Decide(s, command)
    case Ok(next) => next
    case Err(_) => s
  }

  function Run(s: State, commands: seq<Command>): State
    decreases |commands|
  {
    if commands == [] then s else Run(Apply(s, commands[0]), commands[1..])
  }

  // ---------- What the rules say ----------

  predicate Administers(command: Command) {
    command.SetStatus? || command.SetRoles? || command.DeleteAccount?
  }

  /** An administrative command is turned away at once exactly when no administrator is signed in to give it. */
  lemma GatedExactly(s: State, command: Command)
    requires Administers(command)
    ensures Decide(s, command) == Err(Unauthorized) <==>
              !(command.actor in s.accounts && s.accounts[command.actor].signedIn
                && s.accounts[command.actor].status != Disabled)
    ensures Decide(s, command) == Err(Forbidden) <==>
              && command.actor in s.accounts && s.accounts[command.actor].signedIn
              && s.accounts[command.actor].status != Disabled && ADMIN !in s.accounts[command.actor].roles
  {
  }

  /** What a command that goes through does: to one account, and nothing else. */
  lemma AccountsAfter(s: State, command: Command)
    requires Decide(s, command).Ok?
    ensures var accounts := Apply(s, command).accounts;
            match command
            case Register(user, email, required) =>
              user !in s.accounts && accounts == s.accounts[user := Account(
                NormalizeEmail(email, s.letters), if required then Pending else Active, false, {USER}, false)]
            case VerifyEmail(user) =>
              user in s.accounts && accounts == s.accounts[user := s.accounts[user].(
                verified := true, status := if s.accounts[user].status == Disabled then Disabled else Active)]
            case SignIn(user, _) =>
              user in s.accounts && accounts == s.accounts[user := s.accounts[user].(signedIn := true)]
            case SessionsEnd(user) =>
              user in s.accounts && accounts == s.accounts[user := s.accounts[user].(signedIn := false)]
            case GrantRole(user, role) =>
              user in s.accounts && accounts == s.accounts[user := s.accounts[user].(
                roles := s.accounts[user].roles + {role})]
            case SetStatus(target, enable, _) =>
              target in s.accounts && accounts == s.accounts[target := s.accounts[target].(
                status := if enable then Active else Disabled, signedIn := enable && s.accounts[target].signedIn)]
            case SetRoles(target, roles, _) =>
              target in s.accounts && accounts == s.accounts[target := s.accounts[target].(roles := roles)]
            case DeleteAccount(target, _, _, _) => target in s.accounts && accounts == s.accounts - {target}
    ensures Apply(s, command).knownRoles == s.knownRoles && Apply(s, command).letters == s.letters
  {
  }

  /** Signing in takes an account that is not disabled, and a verified one where that is required. */
  lemma SignsInExactly(s: State, user: nat, required: bool)
    ensures Decide(s, SignIn(user, required)).Ok? <==>
              user in s.accounts && s.accounts[user].status != Disabled && (required ==> s.accounts[user].verified)
  {
  }

  /** No disabled account holds a session. */
  predicate DisabledAreOut(s: State) {
    forall u :: u in s.accounts && s.accounts[u].status.Disabled? ==> !s.accounts[u].signedIn
  }

  lemma StepKeepsDisabledOut(s: State, command: Command)
    requires DisabledAreOut(s)
    ensures DisabledAreOut(Apply(s, command))
  {
  }

  predicate Enables(command: Command, user: nat) {
    command.SetStatus? && command.target == user && command.enable
  }

  lemma {:induction false} RunKeepsDisabledOut(s: State, commands: seq<Command>)
    requires DisabledAreOut(s)
    ensures DisabledAreOut(Run(s, commands))
    decreases |commands|
  {
    hide Apply, DisabledAreOut;
    if commands != [] {
      StepKeepsDisabledOut(s, commands[0]);
      RunKeepsDisabledOut(Apply(s, commands[0]), commands[1..]);
    }
  }

  /** Disabled, or deleted and never registered again under that id. */
  lemma {:induction false} DisabledStaysDisabled(s: State, commands: seq<Command>, user: nat)
    requires DisabledAreOut(s) && user in s.accounts && s.accounts[user].status.Disabled?
    requires forall i :: 0 <= i < |commands| ==>
               !Enables(commands[i], user) && !(commands[i].DeleteAccount? && commands[i].target == user)
    ensures var s' := Run(s, commands);
            user in s'.accounts && s'.accounts[user].status.Disabled? && !s'.accounts[user].signedIn
    decreases |commands|
  {
    if commands != [] {
      StepKeepsDisabledOut(s, commands[0]);
      StaysDisabled(s, commands[0], user);
      hide Apply, DisabledAreOut;
      DisabledStaysDisabled(Apply(s, commands[0]), commands[1..], user);
    }
  }

  lemma StaysDisabled(s: State, command: Command, user: nat)
    requires user in s.accounts && s.accounts[user].status.Disabled?
    requires !Enables(command, user) && !(command.DeleteAccount? && command.target == user)
    ensures user in Apply(s, command).accounts && Apply(s, command).accounts[user].status.Disabled?
  {
  }

  lemma OutsidersChangeNothing(s: State, command: Command)
    requires Administers(command) && !Authenticated(s, command.actor)
    ensures Apply(s, command) == s
  {
  }

  /**
   A disabled account is out: whatever is attempted, verifying the address and signing in included, it
   authenticates nobody in any state until an administrator enables it again.
   */
  lemma DisabledAreLockedOut(letters: Letters, before: seq<Command>, commands: seq<Command>, user: nat)
    requires var s := Run(Init(letters), before); user in s.accounts && s.accounts[user].status.Disabled?
    requires forall i :: 0 <= i < |commands| ==>
               !Enables(commands[i], user) && !(commands[i].DeleteAccount? && commands[i].target == user)
    ensures var s := Run(Run(Init(letters), before), commands);
            && !Authenticated(s, user) && user in s.accounts && !s.accounts[user].signedIn
            && (forall command :: Administers(command) && command.actor == user ==> Apply(s, command) == s)
  {
    RunKeepsDisabledOut(Init(letters), before);
    DisabledStaysDisabled(Run(Init(letters), before), commands, user);
    var s := Run(Run(Init(letters), before), commands);
    hide Run, Apply;
    forall command | Administers(command) && command.actor == user ensures Apply(s, command) == s {
      OutsidersChangeNothing(s, command);
    }
  }

  // ---------- The last administrator ----------

  /** The setting is what it was, wherever it is read. */
  predicate Fixed(commands: seq<Command>, required: bool) {
    forall i :: 0 <= i < |commands| ==>
      && (commands[i].Register? ==> commands[i].required == required)
      && (commands[i].SignIn? ==> commands[i].required == required)
  }

  /**
   The side invariant: no pending account holds a session. It needs more than itself: pending accounts
   are unverified, exist only while verification is required, and then only the verified sign in.
   */
  ghost predicate NoPendingSession(s: State, required: bool) {
    forall u :: u in s.accounts ==>
      && (s.accounts[u].status.Pending? ==> required && !s.accounts[u].verified)
      && (s.accounts[u].signedIn && required ==> s.accounts[u].verified)
  }

  lemma StepKeepsNoPendingSession(s: State, command: Command, required: bool)
    requires NoPendingSession(s, required) && Fixed([command], required)
    ensures NoPendingSession(Apply(s, command), required)
  {
    assert [command][0] == command;
  }

  /**
   What loses the last administrator: somebody else's disabling or deletion of the only active one,
   by an authenticated administrator, which then cannot be an active one.
   */
  predicate Loses(s: State, command: Command) {
    && (command.SetStatus? || command.DeleteAccount?)
    && Gate(s, command.actor).None? && command.target != command.actor && ActiveAdmins(s) == {command.target}
    && (command.SetStatus? ==> !command.enable)
    && (command.DeleteAccount? ==>
          !command.ownsAlone && s.accounts[command.target].email == NormalizeEmail(command.confirmEmail, s.letters))
  }

  /** The actor of such a command is an administrator who is signed in while still pending. */
  lemma LoserIsPending(s: State, command: Command)
    requires Loses(s, command)
    ensures var actor := command.actor;
            && actor in s.accounts && s.accounts[actor].status.Pending? && s.accounts[actor].signedIn
            && ADMIN in s.accounts[actor].roles
  {
    assert command.actor !in ActiveAdmins(s);
  }

  /** Exact, whatever the verification setting did: a command loses the last active administrator iff it `Loses`. */
  lemma LosesExactly(s: State, command: Command)
    requires ActiveAdmins(s) != {}
    ensures ActiveAdmins(Apply(s, command)) == {} <==> Loses(s, command)
  {
    var s' := Apply(s, command);
    var admin :| admin in ActiveAdmins(s);
    if Loses(s, command) {
      assert forall u :: u in ActiveAdmins(s') ==> u in ActiveAdmins(s);
    } else if command.SetRoles? && command.target == admin && ADMIN !in command.roles && Decide(s, command).Ok? {
      SomebodyElse(s, admin);
      var other :| other in ActiveAdmins(s) && other != admin;
      assert other in ActiveAdmins(s');
    } else if (command.SetStatus? || command.DeleteAccount?) && Decide(s, command).Ok?
              && ActiveAdmins(s) != {command.target} {
      SomebodyElse(s, command.target);
      var other :| other in ActiveAdmins(s) && other != command.target;
      assert other in ActiveAdmins(s');
    } else {
      assert admin in ActiveAdmins(s');
    }
  }

  lemma SomebodyElse(s: State, user: nat)
    requires ActiveAdmins(s) != {} && ActiveAdmins(s) != {user}
    ensures exists other :: other in ActiveAdmins(s) && other != user
  {
    assert (forall u :: u in ActiveAdmins(s) ==> u == user) ==> ActiveAdmins(s) == {user};
  }

  ghost predicate AlwaysAdministered(s: State, commands: seq<Command>)
    decreases |commands|
  {
    ActiveAdmins(s) != {} && (commands == [] || AlwaysAdministered(Apply(s, commands[0]), commands[1..]))
  }

  predicate NeverLoses(s: State, commands: seq<Command>)
    decreases |commands|
  {
    commands == [] || (!Loses(s, commands[0]) && NeverLoses(Apply(s, commands[0]), commands[1..]))
  }

  /** Over runs: there is an active administrator throughout exactly when no command loses the last one. */
  lemma {:induction false} AdministeredUnlessLost(s: State, commands: seq<Command>)
    requires ActiveAdmins(s) != {}
    ensures AlwaysAdministered(s, commands) <==> NeverLoses(s, commands)
    decreases |commands|
  {
    hide Apply, Loses, ActiveAdmins;
    if commands != [] {
      LosesExactly(s, commands[0]);
      if !Loses(s, commands[0]) {
        AdministeredUnlessLost(Apply(s, commands[0]), commands[1..]);
      }
    }
  }

  /** With no pending session an administrator who gets past the gate is an active one. */
  lemma NobodyPendingCanLose(s: State, command: Command, required: bool)
    requires NoPendingSession(s, required)
    ensures !Loses(s, command)
  {
    assert forall actor :: Gate(s, actor).None? ==> actor in ActiveAdmins(s);
  }

  lemma StepKeepsAnAdmin(s: State, command: Command, required: bool)
    requires NoPendingSession(s, required) && ActiveAdmins(s) != {}
    ensures ActiveAdmins(Apply(s, command)) != {}
  {
    LosesExactly(s, command);
    NobodyPendingCanLose(s, command, required);
  }

  lemma {:induction false} RunKeepsAnAdmin(s: State, commands: seq<Command>, required: bool)
    requires NoPendingSession(s, required) && Fixed(commands, required) && ActiveAdmins(s) != {}
    ensures ActiveAdmins(Run(s, commands)) != {}
    decreases |commands|
  {
    if commands != [] {
      StepKeepsNoPendingSession(s, commands[0], required);
      StepKeepsAnAdmin(s, commands[0], required);
      hide Apply;
      assert forall i :: 0 <= i < |commands[1..]| ==> commands[1..][i] == commands[i + 1];
      RunKeepsAnAdmin(Apply(s, commands[0]), commands[1..], required);
    }
  }

  lemma {:induction false} RunKeepsNoPendingSession(s: State, commands: seq<Command>, required: bool)
    requires NoPendingSession(s, required) && Fixed(commands, required)
    ensures NoPendingSession(Run(s, commands), required)
    decreases |commands|
  {
    if commands != [] {
      StepKeepsNoPendingSession(s, commands[0], required);
      hide Apply;
      assert forall i :: 0 <= i < |commands[1..]| ==> commands[1..][i] == commands[i + 1];
      RunKeepsNoPendingSession(Apply(s, commands[0]), commands[1..], required);
    }
  }

  /**
   On a new instance, with the verification setting never changed: once an active administrator
   exists, one exists in every later state, whatever administrators do to one another.
   */
  lemma AnAdministratorRemains(letters: Letters, before: seq<Command>, after: seq<Command>, required: bool)
    requires Fixed(before, required) && Fixed(after, required)
    requires ActiveAdmins(Run(Init(letters), before)) != {}
    ensures ActiveAdmins(Run(Run(Init(letters), before), after)) != {}
  {
    RunKeepsNoPendingSession(Init(letters), before, required);
    RunKeepsAnAdmin(Run(Init(letters), before), after, required);
  }

  /**
   The refusal is exact as well: giving up the role is refused precisely when it would leave no
   active administrator.
   */
  lemma StepDownRefusedExactly(s: State, target: nat, roles: set<string>)
    requires target in s.accounts && roles <= s.knownRoles && ActiveAdmins(s) != {}
    ensures DecideRoles(s, target, roles) == Err(LastAdministrator)
            <==> ActiveAdmins(With(s, target, s.accounts[target].(roles := roles))) == {}
  {
    var s' := With(s, target, s.accounts[target].(roles := roles));
    if ActiveAdmins(s) == {target} {
      assert target in ActiveAdmins(s);
      assert ADMIN in roles ==> target in ActiveAdmins(s');
      assert forall u :: u in ActiveAdmins(s') ==> u == target || u in ActiveAdmins(s);
    } else {
      assert (forall u :: u in ActiveAdmins(s) ==> u == target) ==> ActiveAdmins(s) == {target};
      var other :| other in ActiveAdmins(s) && other != target;
      assert other in ActiveAdmins(s');
    }
  }

  // ---------- Why the setting has to be fixed ----------

  /**
   Verification is switched off after an account has registered: it signs in while still pending,
   and as an administrator that does not count as active it can disable the only one that does.
   */
  const SWITCHED: seq<Command> := [
    Register(1, "first@b.co", true), VerifyEmail(1), GrantRole(1, ADMIN),
    Register(2, "second@b.co", true), GrantRole(2, ADMIN), SignIn(2, false), SetStatus(1, false, 2) ]

  function Six(letters: Letters): State {
    State(map[1 := Account(NormalizeEmail("first@b.co", letters), Active, true, {USER, ADMIN}, false),
              2 := Account(NormalizeEmail("second@b.co", letters), Pending, false, {USER, ADMIN}, true)],
          {ADMIN, USER}, letters)
  }

  lemma SwitchedTo(letters: Letters)
    ensures Run(Init(letters), SWITCHED[..6]) == Six(letters)
  {
    hide NormalizeEmail;
    var first := Account(NormalizeEmail("first@b.co", letters), Pending, false, {USER}, false);
    var second := Account(NormalizeEmail("second@b.co", letters), Pending, false, {USER}, false);
    var active := first.(status := Active, verified := true);
    var s1 := State(map[1 := first], {ADMIN, USER}, letters);
    var s2 := State(map[1 := active], {ADMIN, USER}, letters);
    var s3 := State(map[1 := active.(roles := {USER, ADMIN})], {ADMIN, USER}, letters);
    var s4 := State(map[1 := active.(roles := {USER, ADMIN}), 2 := second], {ADMIN, USER}, letters);
    var s5 := State(map[1 := active.(roles := {USER, ADMIN}), 2 := second.(roles := {USER, ADMIN})],
                    {ADMIN, USER}, letters);
    assert {USER} + {ADMIN} == {USER, ADMIN};
    assert Apply(Init(letters), SWITCHED[0]) == s1;
    assert Apply(s1, SWITCHED[1]) == s2;
    assert Apply(s2, SWITCHED[2]) == s3;
    assert Apply(s3, SWITCHED[3]) == s4;
    assert Apply(s4, SWITCHED[4]) == s5;
    assert Apply(s5, SWITCHED[5]) == Six(letters);
    hide Apply, Run;
    RunSteps(Init(letters), SWITCHED[..6], [s1, s2, s3, s4, s5, Six(letters)]);
  }

  lemma {:induction false} RunSteps(s: State, commands: seq<Command>, states: seq<State>)
    requires |states| == |commands| > 0 && states[0] == Apply(s, commands[0])
    requires forall i :: 1 <= i < |commands| ==> states[i] == Apply(states[i - 1], commands[i])
    ensures Run(s, commands) == states[|states| - 1]
    decreases |commands|
  {
    hide Apply;
    if |commands| > 1 {
      RunSteps(states[0], commands[1..], states[1..]);
    }
  }

  lemma SwitchingLosesTheAdministrator(letters: Letters)
    ensures ActiveAdmins(Run(Init(letters), SWITCHED[..6])) == {1}
        && ActiveAdmins(Apply(Run(Init(letters), SWITCHED[..6]), SWITCHED[6])) == {}
  {
    hide NormalizeEmail;
    hide Run;
    SwitchedTo(letters);
  }

  // ---------- The service ----------

  class IdentityAdministration {
    const letters: Letters
    var accounts: map<nat, Account>
    var knownRoles: set<string>

    constructor (letters: Letters)
      ensures StateOf() == Init(letters)
    {
      this.letters, accounts, knownRoles := letters, map[], {ADMIN, USER};
    }

    function StateOf(): State reads this {
      State(accounts, knownRoles, letters)
    }

    /** Disabling also signs the account out everywhere. */
    method SetAccountStatus(target: nat, status: Status, actor: nat) returns (result: Result<Account, Error>)
      requires !status.Pending?
      modifies this
      ensures var decided := DecideStatus(old(StateOf()), target, status.Active?, actor);
              if result.Ok? then decided == Ok(StateOf()) && target in accounts && result.value == accounts[target]
              else decided == Err(result.error) && StateOf() == old(StateOf())
      ensures result.Ok? <==> target != actor && target in old(accounts)
      ensures result.Ok? ==>
                accounts == old(accounts)[target := old(accounts)[target].(
                              status := status, signedIn := !status.Disabled? && old(accounts)[target].signedIn)]
    {
      if target == actor {
        return Err(SelfTargeted);
      }
      if target !in accounts {
        return Err(NotFound);
      }
      accounts := accounts[target := accounts[target].(status := status)];
      if status.Disabled? {
        accounts := accounts[target := accounts[target].(signedIn := false)];
      }
      assert accounts == old(accounts)[target := accounts[target]];
      result := Ok(accounts[target]);
    }

    /** Whether somebody other than `target` could still administer. */
    method EnsureAnAdminRemains(target: nat) returns (ok: bool)
      ensures ok <==> ActiveAdmins(StateOf()) != {target}
    {
      var admins := set u | u in accounts && ActiveAdmin(accounts[u]);
      ok := !(|admins| == 1 && target in admins);
      if |admins| == 1 && target in admins {
        assert admins == {target} + (admins - {target});
      }
    }

    method SetAccountRoles(target: nat, roles: set<string>) returns (result: Result<Account, Error>)
      modifies this
      ensures var decided := DecideRoles(old(StateOf()), target, roles);
              if result.Ok? then decided == Ok(StateOf()) && target in accounts && result.value == accounts[target]
              else decided == Err(result.error) && StateOf() == old(StateOf())
      ensures result.Ok? <==>
                && roles <= knownRoles && target in old(accounts)
                && (ADMIN in old(accounts)[target].roles && ADMIN !in roles ==>
                      ActiveAdmins(old(StateOf())) != {target})
      ensures result.Ok? ==> accounts == old(accounts)[target := old(accounts)[target].(roles := roles)]
    {
      if !(roles <= knownRoles) {
        return Err(UnknownRole);
      }
      var before := RolesHeld(StateOf(), target);
      if ADMIN in before && ADMIN !in roles {
        var ok := EnsureAnAdminRemains(target);
        if !ok {
          return Err(LastAdministrator);
        }
      }
      if target !in accounts {
        return Err(NotFound);
      }
      accounts := accounts[target := accounts[target].(roles := roles)];
      result := Ok(accounts[target]);
    }

    method Delete(target: nat, confirmEmail: string, ownsAlone: bool, actor: nat) returns (result: Result<(), Error>)
      modifies this
      ensures var decided := DecideDelete(old(StateOf()), target, confirmEmail, ownsAlone, actor);
              if result.Ok? then decided == Ok(StateOf())
              else decided == Err(result.error) && StateOf() == old(StateOf())
      ensures result.Ok? <==>
                && target != actor && target in old(accounts) && !ownsAlone
                && old(accounts)[target].email == NormalizeEmail(confirmEmail, letters)
      ensures result.Ok? ==> accounts == old(accounts) - {target}
    {
      if target == actor {
        return Err(SelfTargeted);
      }
      if target !in accounts {
        return Err(NotFound);
      }
      if accounts[target].email != NormalizeEmail(confirmEmail, letters) {
        return Err(ConfirmationMismatch);
      }
      if ownsAlone {
        return Err(LastOwner);
      }
      accounts := accounts - {target};
      result := Ok(());
    }
  }
}
