/**
 Sessions and their refresh tokens. Rotation grows a session's tokens into a chain; presenting a
 used token again is reported as a reuse. Every statement or locked transaction is one step.

 A token is identified by its hash, unique like its row id. Session ids and hashes are drawn at
 random, so they are fresh (`minted`). `chains` and `places` are history, read by no step: the order
 in which a session's tokens were issued, and where in it each token stands.
 */
module Sessions {
  import opened Common

  datatype Session = Session(user: nat, expiresAt: int, revokedAt: Option<int>)

  datatype Token = Token(session: nat, expiresAt: int, usedAt: Option<int>, replacedBy: Option<nat>)

  datatype State = State(
    now: int,
    sessions: map<nat, Session>,
    tokens: map<nat, Token>,
    minted: set<nat>,
    chains: map<nat, seq<nat>>,
    places: map<nat, nat>)

  function Init(): State {
    State(0, map[], map[], {}, map[], map[])
  }

  /** `Failed`: the replacement could not be inserted, and the transaction rolls back. */
  datatype Outcome = Rotated(user: nat, session: nat) | Reused(user: nat, session: nat) | Invalid | Failed

  /** Reuse is looked for first: a used token is a replay even when its session is over. */
  function Redeem(s: State, presented: nat, replacement: nat, newExpiresAt: int): Outcome {
    if presented !in s.tokens || s.tokens[presented].session !in s.sessions then
      Invalid
    else
      var token := s.tokens[presented];
      var session := s.sessions[token.session];
      if token.usedAt.Some? then Reused(session.user, token.session)
      else if session.revokedAt.Some? || token.expiresAt <= s.now || session.expiresAt <= s.now then Invalid
      else if replacement in s.minted || Min(newExpiresAt, session.expiresAt) <= s.now then Failed
      else Rotated(session.user, token.session)
  }

  datatype Step =
    | Tick(seconds: nat)
    | Create(session: nat, user: nat, hash: nat, sessionExpiresAt: int, tokenExpiresAt: int)
    | Refresh(presented: nat, replacement: nat, newExpiresAt: int)
    | Revoke(session: nat)
    | RevokeAll(user: nat)
    | RevokeOthers(user: nat, keep: nat)
    | DeleteUser(user: nat)

  function AfterCreate(s: State, session: nat, user: nat, hash: nat, sessionExpiresAt: int,
      tokenExpiresAt: int): State {
    s.(sessions := s.sessions[session := Session(user, sessionExpiresAt, None)],
       tokens := s.tokens[hash := Token(session, tokenExpiresAt, None, None)],
       minted := s.minted + {session, hash},
       chains := s.chains[session := [hash]],
       places := s.places[hash := 0])
  }

  function ChainOf(s: State, session: nat): seq<nat> {
    if session in s.chains then s.chains[session] else []
  }

  /** A replacement's expiry is cut off at its session's. */
  function AfterRotation(s: State, presented: nat, replacement: nat, newExpiresAt: int): State
    requires presented in s.tokens && s.tokens[presented].session in s.sessions
  {
    var session := s.tokens[presented].session;
    var issued := Token(session, Min(newExpiresAt, s.sessions[session].expiresAt), None, None);
    var used := s.tokens[presented].(usedAt := Some(s.now), replacedBy := Some(replacement));
    s.(tokens := s.tokens[replacement := issued][presented := used],
       minted := s.minted + {replacement},
       chains := s.chains[session := ChainOf(s, session) + [replacement]],
       places := s.places[replacement := |ChainOf(s, session)|])
  }

  function Revoked(s: State, chosen: set<nat>): map<nat, Session> {
    map x | x in s.sessions ::
      if x in chosen && s.sessions[x].revokedAt.None? then s.sessions[x].(revokedAt := Some(s.now)) else s.sessions[x]
  }

  function SessionsOf(s: State, user: nat): set<nat> {
    set x | x in s.sessions && s.sessions[x].user == user
  }

  function AfterDeleteUser(s: State, user: nat): State {
    var gone := SessionsOf(s, user);
    s.(sessions := s.sessions - gone,
       tokens := map h | h in s.tokens && s.tokens[h].session !in gone :: s.tokens[h],
       chains := s.chains - gone)
  }

  function Apply(s: State, step: Step): State {
    match step
    case Tick(seconds) => s.(now := s.now + seconds)
    case Create(session, user, hash, sessionExpiresAt, tokenExpiresAt) =>
      if session in s.minted || hash in s.minted || session == hash
         || sessionExpiresAt <= s.now || tokenExpiresAt <= s.now then s
      else AfterCreate(s, session, user, hash, sessionExpiresAt, tokenExpiresAt)
    case Refresh(presented, replacement, newExpiresAt) =>
      if Redeem(s, presented, replacement, newExpiresAt).Rotated?
      then AfterRotation(s, presented, replacement, newExpiresAt) else s
    case Revoke(session) => s.(sessions := Revoked(s, {session}))
    case RevokeAll(user) => s.(sessions := Revoked(s, SessionsOf(s, user)))
    case RevokeOthers(user, keep) => s.(sessions := Revoked(s, SessionsOf(s, user) - {keep}))
    case DeleteUser(user) => AfterDeleteUser(s, user)
  }

  function Run(s: State, steps: seq<Step>): State
    decreases |steps|
  {
    if steps == [] then s else Run(Apply(s, steps[0]), steps[1..])
  }

  predicate IsActive(s: State, session: nat, user: nat) {
    && session in s.sessions && s.sessions[session].user == user
    && s.sessions[session].revokedAt.None? && s.sessions[session].expiresAt > s.now
  }

  // ---------- The shape of a family ----------

  /** `chain` lists the session's tokens, each once, linked by `replaced_by`; only the last is unused. */
  ghost predicate Family(s: State, x: nat, chain: seq<nat>) {
    && chain != []
    && (forall i :: 0 <= i < |chain| ==> chain[i] in s.tokens && s.tokens[chain[i]].session == x)
    && (forall h :: h in s.tokens && s.tokens[h].session == x ==> h in chain)
    && (forall i, j :: 0 <= i < j < |chain| ==> chain[i] != chain[j])
    && (forall i, j :: 0 <= i < |chain| && j == i + 1 && j < |chain| ==>
          s.tokens[chain[i]].usedAt.Some? && s.tokens[chain[i]].replacedBy == Some(chain[j]))
    && s.tokens[chain[|chain| - 1]].usedAt.None? && s.tokens[chain[|chain| - 1]].replacedBy.None?
  }

  /** Only the first token, which sign-in issues with its own expiry, can outlive the session. */
  ghost predicate Clamped(s: State, x: nat, chain: seq<nat>)
    requires x in s.sessions
  {
    forall i :: 1 <= i < |chain| && chain[i] in s.tokens ==> s.tokens[chain[i]].expiresAt <= s.sessions[x].expiresAt
  }

  /** A token stands in its session's chain, used unless it is the last, and clamped unless the first. */
  ghost predicate TokenOk(s: State, h: nat)
    requires h in s.tokens
  {
    var token := s.tokens[h];
    && h in s.minted && token.session in s.sessions && token.session in s.chains && h in s.places
    && s.places[h] < |s.chains[token.session]| && s.chains[token.session][s.places[h]] == h
    && (token.usedAt.Some? <==> s.places[h] < |s.chains[token.session]| - 1)
    && (token.usedAt.Some? <==> token.replacedBy.Some?)
    && (s.places[h] > 0 ==> token.expiresAt <= s.sessions[token.session].expiresAt)
  }

  /** A used token's replacement is the next one of its session. */
  ghost predicate LinkOk(s: State, h: nat)
    requires h in s.tokens
  {
    s.tokens[h].replacedBy.Some? ==>
      var next := s.tokens[h].replacedBy.value;
      next in s.tokens && s.tokens[next].session == s.tokens[h].session
      && next in s.places && h in s.places && s.places[next] == s.places[h] + 1
  }

  ghost predicate ChainOk(s: State, x: nat) {
    && x in s.minted && x in s.chains && s.chains[x] != []
    && forall i :: 0 <= i < |s.chains[x]| ==>
         && s.chains[x][i] in s.tokens && s.tokens[s.chains[x][i]].session == x
         && s.chains[x][i] in s.places && s.places[s.chains[x][i]] == i
  }

  ghost predicate Inv(s: State) {
    && (forall h :: h in s.tokens ==> TokenOk(s, h))
    && (forall h {:trigger LinkOk(s, h)} :: h in s.tokens ==> LinkOk(s, h))
    && (forall x :: x in s.sessions ==> ChainOk(s, x))
  }

  lemma TokensHaveSessions(s: State)
    requires Inv(s)
    ensures forall h :: h in s.tokens ==> h in s.minted && s.tokens[h].session in s.sessions
    ensures forall x :: x in s.sessions ==> x in s.minted
  {
  }

  lemma InvIsFamily(s: State, x: nat)
    requires Inv(s) && x in s.sessions
    ensures Family(s, x, s.chains[x]) && Clamped(s, x, s.chains[x])
  {
    var chain := s.chains[x];
    assert ChainOk(s, x);
    assert forall i :: 0 <= i < |chain| ==> TokenOk(s, chain[i]) && LinkOk(s, chain[i]);
    forall h | h in s.tokens && s.tokens[h].session == x ensures h in chain {
      assert TokenOk(s, h);
    }
    forall i, j | 0 <= i < |chain| && j == i + 1 && j < |chain|
      ensures s.tokens[chain[i]].usedAt.Some? && s.tokens[chain[i]].replacedBy == Some(chain[j])
    {
      assert TokenOk(s, s.tokens[chain[i]].replacedBy.value);
    }
  }

  lemma CreateKeepsInv(s: State, step: Step)
    requires Inv(s) && step.Create?
    ensures Inv(Apply(s, step))
  {
    var s' := Apply(s, step);
    forall h | h in s'.tokens ensures TokenOk(s', h) && LinkOk(s', h) {
      if h in s.tokens { assert TokenOk(s, h) && LinkOk(s, h); }
    }
    forall x | x in s'.sessions ensures ChainOk(s', x) {
      if x in s.sessions { assert ChainOk(s, x); }
    }
  }

  lemma RotationKeepsTokens(s: State, presented: nat, replacement: nat, newExpiresAt: int, h: nat)
    requires Inv(s) && Redeem(s, presented, replacement, newExpiresAt).Rotated?
    requires h in AfterRotation(s, presented, replacement, newExpiresAt).tokens
    ensures TokenOk(AfterRotation(s, presented, replacement, newExpiresAt), h)
    ensures LinkOk(AfterRotation(s, presented, replacement, newExpiresAt), h)
  {
    assert TokenOk(s, presented) && ChainOk(s, s.tokens[presented].session);
    if h != replacement { assert TokenOk(s, h) && LinkOk(s, h); }
    if h != replacement && h != presented
        && s.tokens[h].session == s.tokens[presented].session { NotLast(s, presented, h); }
  }

  /** A redeemable token is the tail, so no other token of its session is. */
  lemma NotLast(s: State, tail: nat, h: nat)
    requires Inv(s) && tail in s.tokens && h in s.tokens && s.tokens[tail].usedAt.None? && h != tail
    requires s.tokens[h].session == s.tokens[tail].session
    ensures s.tokens[h].usedAt.Some?
  {
  }

  lemma RotationKeepsChains(s: State, presented: nat, replacement: nat, newExpiresAt: int, x: nat)
    requires Inv(s) && Redeem(s, presented, replacement, newExpiresAt).Rotated? && x in s.sessions
    ensures ChainOk(AfterRotation(s, presented, replacement, newExpiresAt), x)
  {
  }

  lemma RefreshKeepsInv(s: State, step: Step)
    requires Inv(s) && step.Refresh?
    ensures Inv(Apply(s, step))
  {
    if Redeem(s, step.presented, step.replacement, step.newExpiresAt).Rotated? {
      var s' := Apply(s, step);
      hide TokenOk, LinkOk, ChainOk;
      forall h | h in s'.tokens ensures TokenOk(s', h) && LinkOk(s', h) {
        RotationKeepsTokens(s, step.presented, step.replacement, step.newExpiresAt, h);
      }
      forall x | x in s'.sessions ensures ChainOk(s', x) {
        RotationKeepsChains(s, step.presented, step.replacement, step.newExpiresAt, x);
      }
    }
  }

  /** Revoking and the passing of time leave tokens alone. */
  lemma RevokeKeepsInv(s: State, step: Step)
    requires Inv(s) && (step.Tick? || step.Revoke? || step.RevokeAll? || step.RevokeOthers?)
    ensures Inv(Apply(s, step))
  {
    var s' := Apply(s, step);
    forall h | h in s'.tokens ensures TokenOk(s', h) && LinkOk(s', h) { assert TokenOk(s, h) && LinkOk(s, h); }
    forall x | x in s'.sessions ensures ChainOk(s', x) { assert ChainOk(s, x); }
  }

  /** Deleting an account takes whole families with it. */
  lemma DeleteKeepsInv(s: State, user: nat)
    requires Inv(s)
    ensures Inv(AfterDeleteUser(s, user))
  {
    var s' := AfterDeleteUser(s, user);
    forall h | h in s'.tokens ensures TokenOk(s', h) && LinkOk(s', h) { assert TokenOk(s, h) && LinkOk(s, h); }
    forall x | x in s'.sessions ensures ChainOk(s', x) { assert ChainOk(s, x); }
  }

  lemma StepKeepsInv(s: State, step: Step)
    requires Inv(s)
    ensures Inv(Apply(s, step))
  {
    hide Inv;
    match step
    case Create(_, _, _, _, _) => CreateKeepsInv(s, step);
    case Refresh(_, _, _) => RefreshKeepsInv(s, step);
    case DeleteUser(user) => DeleteKeepsInv(s, user);
    case _ => RevokeKeepsInv(s, step);
  }

  lemma {:induction false} RunKeepsInv(s: State, steps: seq<Step>)
    requires Inv(s)
    ensures Inv(Run(s, steps))
    decreases |steps|
  {
    hide Inv, Apply;
    if steps != [] {
      StepKeepsInv(s, steps[0]);
      RunKeepsInv(Apply(s, steps[0]), steps[1..]);
    }
  }

  /**
   In every reachable state a session's tokens form one `replaced_by` chain, all but the tail used,
   and every token but the first expires no later than the session.
   */
  lemma FamilyIsOneChain(steps: seq<Step>, x: nat)
    requires x in Run(Init(), steps).sessions
    ensures var s := Run(Init(), steps); exists chain :: Family(s, x, chain) && Clamped(s, x, chain)
  {
    RunKeepsInv(Init(), steps);
    InvIsFamily(Run(Init(), steps), x);
  }

  /** Exactly one token of a session is unused. */
  lemma OneUnusedToken(steps: seq<Step>, x: nat)
    requires x in Run(Init(), steps).sessions
    ensures var s := Run(Init(), steps);
            exists tail :: tail in s.tokens && s.tokens[tail].session == x && s.tokens[tail].usedAt.None?
              && forall h :: h in s.tokens && s.tokens[h].session == x && s.tokens[h].usedAt.None? ==> h == tail
  {
    var s := Run(Init(), steps);
    RunKeepsInv(Init(), steps);
    InvIsFamily(s, x);
    var tail := s.chains[x][|s.chains[x]| - 1];
    forall h | h in s.tokens && s.tokens[h].session == x && s.tokens[h].usedAt.None? ensures h == tail {
      if h != tail { NotLast(s, tail, h); }
    }
  }

  // ---------- When a token is good ----------

  /** Known and unused, and neither it nor its session over. */
  predicate Good(s: State, h: nat) {
    && h in s.tokens && s.tokens[h].usedAt.None? && s.tokens[h].expiresAt > s.now
    && s.tokens[h].session in s.sessions && IsActive(s, s.tokens[h].session, s.sessions[s.tokens[h].session].user)
  }

  /**
   A token is exchanged exactly when it is good and the replacement can be inserted, and is called a
   reuse exactly when it is known and used, whatever became of its session.
   */
  lemma RedeemsExactly(s: State, h: nat, replacement: nat, newExpiresAt: int)
    requires Inv(s)
    ensures var redeemed := Redeem(s, h, replacement, newExpiresAt);
            && (redeemed.Rotated? <==> Good(s, h) && replacement !in s.minted && newExpiresAt > s.now)
            && (redeemed.Reused? <==> h in s.tokens && s.tokens[h].usedAt.Some?)
            && (redeemed.Invalid? <==> (h in s.tokens ==> s.tokens[h].usedAt.None?) && !Good(s, h))
            && (redeemed.Rotated? || redeemed.Reused? ==>
                  && redeemed.session == s.tokens[h].session && redeemed.session in s.sessions
                  && redeemed.user == s.sessions[redeemed.session].user)
  {
    TokensHaveSessions(s);
  }

  /** The replacement lasts as long as asked but no longer than the session; the old token is used up. */
  lemma RotationIssues(s: State, h: nat, replacement: nat, newExpiresAt: int)
    requires Inv(s) && Redeem(s, h, replacement, newExpiresAt).Rotated?
    ensures var s' := Apply(s, Refresh(h, replacement, newExpiresAt));
            var end := s.sessions[s.tokens[h].session].expiresAt;
            && s'.sessions == s.sessions && s'.now == s.now && h in s'.tokens && replacement in s'.tokens
            && s'.tokens[replacement] == Token(s.tokens[h].session, if newExpiresAt < end then newExpiresAt else end,
                                               None, None)
            && s'.tokens[h] == s.tokens[h].(usedAt := Some(s.now), replacedBy := Some(replacement))
            && s'.tokens.Keys == s.tokens.Keys + {replacement}
            && (forall other :: other in s.tokens && other != h ==> s'.tokens[other] == s.tokens[other])
  {
    TokensHaveSessions(s);
    hide Inv;
  }

  // ---------- No token is rotated twice ----------

  predicate RotatesToken(s: State, step: Step, h: nat) {
    step.Refresh? && step.presented == h && Redeem(s, h, step.replacement, step.newExpiresAt).Rotated?
  }

  function Rotations(s: State, steps: seq<Step>, h: nat): nat
    decreases |steps|
  {
    if steps == [] then 0
    else (if RotatesToken(s, steps[0], h) then 1 else 0) + Rotations(Apply(s, steps[0]), steps[1..], h)
  }

  /** Used, or gone together with its session: either way past redeeming. */
  predicate Spent(s: State, h: nat) {
    h in s.minted && (h !in s.tokens || s.tokens[h].usedAt.Some?)
  }

  lemma {:induction false} SpentNeverRotates(s: State, steps: seq<Step>, h: nat)
    requires Spent(s, h)
    ensures Rotations(s, steps, h) == 0 && Spent(Run(s, steps), h)
    decreases |steps|
  {
    if steps != [] {
      SpentNeverRotates(Apply(s, steps[0]), steps[1..], h);
    }
  }

  /** Over any run, by any number of clients: a token is exchanged at most once. */
  lemma {:induction false} RotatedAtMostOnce(s: State, steps: seq<Step>, h: nat)
    requires Inv(s)
    ensures Rotations(s, steps, h) <= 1
    decreases |steps|
  {
    hide Inv;
    if steps != [] {
      StepKeepsInv(s, steps[0]);
      if RotatesToken(s, steps[0], h) {
        SpentAfterRotation(s, steps[0], h);
        SpentNeverRotates(Apply(s, steps[0]), steps[1..], h);
      } else {
        RotatedAtMostOnce(Apply(s, steps[0]), steps[1..], h);
      }
    }
  }

  lemma SpentAfterRotation(s: State, step: Step, h: nat)
    requires Inv(s) && RotatesToken(s, step, h)
    ensures Spent(Apply(s, step), h)
  {
  }

  /** Past its own expiry, or gone. */
  predicate Expired(s: State, h: nat) {
    h in s.minted && (h in s.tokens ==> s.tokens[h].expiresAt <= s.now)
  }

  lemma ExpiredStaysExpired(s: State, step: Step, h: nat)
    requires Expired(s, h)
    ensures Expired(Apply(s, step), h) && !RotatesToken(s, step, h)
  {
  }

  lemma {:induction false} ExpiredNeverRotates(s: State, steps: seq<Step>, h: nat)
    requires Expired(s, h)
    ensures Rotations(s, steps, h) == 0
    decreases |steps|
  {
    hide Apply, Expired, RotatesToken;
    if steps != [] {
      ExpiredStaysExpired(s, steps[0], h);
      ExpiredNeverRotates(Apply(s, steps[0]), steps[1..], h);
    }
  }

  lemma {:induction false} ExpiryComes(s: State, steps: seq<Step>, h: nat)
    requires h in s.minted && (h in s.tokens ==> s.tokens[h].expiresAt <= s.now + Elapsed(steps))
    ensures Expired(Run(s, steps), h)
    decreases |steps|
  {
    if steps != [] { ExpiryComes(Apply(s, steps[0]), steps[1..], h); }
  }

  /** A token has its own end: once that has passed it is never exchanged, however long its session lasts. */
  lemma TokensExpire(s: State, steps: seq<Step>, after: seq<Step>, h: nat)
    requires Inv(s) && h in s.tokens && s.now + Elapsed(steps) >= s.tokens[h].expiresAt
    ensures Rotations(Run(s, steps), after, h) == 0
  {
    TokensHaveSessions(s);
    ExpiryComes(s, steps, h);
    ExpiredNeverRotates(Run(s, steps), after, h);
  }

  /** Redemptions of one token, each bringing its own fresh replacement. */
  function Redemptions(h: nat, replacements: seq<nat>, newExpiresAt: int): seq<Step> {
    seq(|replacements|, i requires 0 <= i < |replacements| => Refresh(h, replacements[i], newExpiresAt))
  }

  /** However many clients redeem a token at once, exactly one rotates it; each other is a reuse. */
  lemma OneWinner(s: State, h: nat, replacements: seq<nat>, newExpiresAt: int, k: nat)
    requires Inv(s) && 1 <= k < |replacements|
    requires Redeem(s, h, replacements[0], newExpiresAt).Rotated?
    ensures var x := s.tokens[h].session;
            Redeem(Run(s, Redemptions(h, replacements[..k], newExpiresAt)), h, replacements[k], newExpiresAt)
            == Reused(s.sessions[x].user, x)
    ensures Rotations(s, Redemptions(h, replacements, newExpiresAt), h) == 1
  {
    var steps, first := Redemptions(h, replacements, newExpiresAt), Redemptions(h, replacements[..k], newExpiresAt);
    var won := Apply(s, steps[0]);
    SpentAfterRotation(s, steps[0], h);
    SpentNeverRotates(won, steps[1..], h);
    assert Redeem(won, h, replacements[k], newExpiresAt)
        == Reused(s.sessions[s.tokens[h].session].user, s.tokens[h].session);
    hide Apply, Redeem, Inv;
    assert first[0] == steps[0];
    assert first[1..] == Redemptions(h, replacements[1..k], newExpiresAt);
    LosersChangeNothing(won, h, replacements[1..k], newExpiresAt);
  }

  lemma {:induction false} LosersChangeNothing(s: State, h: nat, replacements: seq<nat>, newExpiresAt: int)
    requires h in s.tokens && s.tokens[h].usedAt.Some?
    ensures Run(s, Redemptions(h, replacements, newExpiresAt)) == s
    decreases |replacements|
  {
    if replacements != [] {
      var steps := Redemptions(h, replacements, newExpiresAt);
      assert steps[0] == Refresh(h, replacements[0], newExpiresAt) && Apply(s, steps[0]) == s;
      assert steps[1..] == Redemptions(h, replacements[1..], newExpiresAt);
      LosersChangeNothing(s, h, replacements[1..], newExpiresAt);
    }
  }

  // ---------- Replay and expiry ----------

  predicate RotatesIn(s: State, step: Step, x: nat) {
    && step.Refresh?
    && Redeem(s, step.presented, step.replacement, step.newExpiresAt).Rotated?
    && Redeem(s, step.presented, step.replacement, step.newExpiresAt).session == x
  }

  predicate RotatedDuring(s: State, steps: seq<Step>, x: nat)
    decreases |steps|
  {
    steps != [] && (RotatesIn(s, steps[0], x) || RotatedDuring(Apply(s, steps[0]), steps[1..], x))
  }

  /** Over for good: gone, revoked, or past its original expiry. */
  predicate Over(s: State, x: nat) {
    x in s.minted && (x in s.sessions ==> s.sessions[x].revokedAt.Some? || s.sessions[x].expiresAt <= s.now)
  }

  lemma OverStaysOver(s: State, step: Step, x: nat)
    requires Over(s, x)
    ensures Over(Apply(s, step), x) && !RotatesIn(s, step, x)
    ensures forall user :: !IsActive(s, x, user)
  {
  }

  lemma {:induction false} OverNeverRotates(s: State, steps: seq<Step>, x: nat)
    requires Over(s, x)
    ensures !RotatedDuring(s, steps, x) && Over(Run(s, steps), x)
    ensures forall user :: !IsActive(Run(s, steps), x, user)
    decreases |steps|
  {
    hide Apply;
    if steps != [] {
      OverStaysOver(s, steps[0], x);
      OverNeverRotates(Apply(s, steps[0]), steps[1..], x);
    }
  }

  /** Active is what a session of that user is until it is over. */
  lemma ActiveUnlessOver(s: State, x: nat, user: nat)
    requires Inv(s)
    ensures IsActive(s, x, user) <==> x in s.sessions && s.sessions[x].user == user && !Over(s, x)
  {
    TokensHaveSessions(s);
  }

  /** Which sessions a revocation ends, and that it ends no other. */
  lemma RevocationsEnd(s: State, user: nat, keep: nat, x: nat, owner: nat)
    ensures IsActive(Apply(s, Revoke(keep)), x, owner) <==> IsActive(s, x, owner) && x != keep
    ensures IsActive(Apply(s, RevokeAll(user)), x, owner) <==> IsActive(s, x, owner) && owner != user
    ensures IsActive(Apply(s, RevokeOthers(user, keep)), x, owner)
            <==> IsActive(s, x, owner) && (owner != user || x == keep)
    ensures IsActive(Apply(s, DeleteUser(user)), x, owner) <==> IsActive(s, x, owner) && owner != user
  {
  }

  /** Signing out everywhere else is for good: no token of those sessions is exchanged any more. */
  lemma SignedOutForGood(s: State, user: nat, keep: nat, steps: seq<Step>, x: nat)
    requires Inv(s) && x in s.sessions && s.sessions[x].user == user
    ensures !RotatedDuring(Apply(s, RevokeAll(user)), steps, x)
    ensures x != keep ==> !RotatedDuring(Apply(s, RevokeOthers(user, keep)), steps, x)
    ensures x != keep ==> forall owner :: !IsActive(Run(Apply(s, RevokeOthers(user, keep)), steps), x, owner)
  {
    TokensHaveSessions(s);
    OverNeverRotates(Apply(s, RevokeAll(user)), steps, x);
    if x != keep { OverNeverRotates(Apply(s, RevokeOthers(user, keep)), steps, x); }
  }

  /**
   Replay: a used token is presented, anything happens, and the reuse path revokes. From then on no
   token of that family is rotated and the session authenticates nobody, whatever follows; the
   revocation itself leaves every other session, and every token, as it was.
   */
  lemma ReplayEndsTheFamily(s: State, presented: nat, replacement: nat, newExpiresAt: int, between: seq<Step>,
      after: seq<Step>)
    requires Inv(s) && Redeem(s, presented, replacement, newExpiresAt).Reused?
    ensures var x := Redeem(s, presented, replacement, newExpiresAt).session;
            var before := Run(s, [Refresh(presented, replacement, newExpiresAt)] + between);
            var revoked := Apply(before, Revoke(x));
            && !RotatedDuring(revoked, after, x)
            && (forall user :: !IsActive(Run(revoked, after), x, user))
            && revoked == before.(sessions := revoked.sessions)
            && (forall y :: y != x ==> (y in revoked.sessions <==> y in before.sessions)
                                       && (y in before.sessions ==> revoked.sessions[y] == before.sessions[y]))
  {
    hide Run;
    var x := Redeem(s, presented, replacement, newExpiresAt).session;
    var steps := [Refresh(presented, replacement, newExpiresAt)] + between;
    MintedStays(s, steps, x);
    OverNeverRotates(Apply(Run(s, steps), Revoke(x)), after, x);
  }

  lemma {:induction false} MintedStays(s: State, steps: seq<Step>, x: nat)
    requires x in s.minted
    ensures x in Run(s, steps).minted
    decreases |steps|
  {
    if steps != [] { MintedStays(Apply(s, steps[0]), steps[1..], x); }
  }

  function Elapsed(steps: seq<Step>): nat {
    if steps == [] then 0 else (if steps[0].Tick? then steps[0].seconds else 0) + Elapsed(steps[1..])
  }

  /**
   Expiry: no number of rotations moves a session's end. Once the time it was created with has
   passed, nothing in its family is ever exchanged again.
   */
  lemma RotationCannotExtend(s: State, steps: seq<Step>, after: seq<Step>, x: nat)
    requires Inv(s) && x in s.sessions && s.now + Elapsed(steps) >= s.sessions[x].expiresAt
    ensures !RotatedDuring(Run(s, steps), after, x)
    ensures forall user :: !IsActive(Run(Run(s, steps), after), x, user)
  {
    EndIsFixed(s, steps, x);
    OverNeverRotates(Run(s, steps), after, x);
  }

  lemma {:induction false} EndIsFixed(s: State, steps: seq<Step>, x: nat)
    requires x in s.minted && (x in s.sessions ==> s.sessions[x].expiresAt <= s.now + Elapsed(steps))
    ensures Over(Run(s, steps), x)
    decreases |steps|
  {
    if steps != [] {
      EndIsFixed(Apply(s, steps[0]), steps[1..], x);
    }
  }

  // ---------- The repository and the service over it ----------

  class SessionRepository {
    var now: int
    var sessions: map<nat, Session>
    var tokens: map<nat, Token>
    ghost var minted: set<nat>
    ghost var chains: map<nat, seq<nat>>
    ghost var places: map<nat, nat>

    constructor ()
      ensures StateOf() == Init()
    {
      now, sessions, tokens := 0, map[], map[];
      minted, chains, places := {}, map[], map[];
    }

    ghost function StateOf(): State reads this {
      State(now, sessions, tokens, minted, chains, places)
    }

    /** Opens a session with its first token; `false` when a check constraint refuses the expiries. */
    method CreateSession(session: nat, user: nat, hash: nat, sessionExpiresAt: int,
        tokenExpiresAt: int) returns (ok: bool)
      requires session !in minted && hash !in minted && session != hash
      modifies this
      ensures StateOf() == Apply(old(StateOf()), Create(session, user, hash, sessionExpiresAt, tokenExpiresAt))
      ensures ok <==> sessionExpiresAt > now && tokenExpiresAt > now
      ensures ok ==> IsActive(StateOf(), session, user) && hash in tokens && tokens[hash].session == session
                     && sessions[session].expiresAt == sessionExpiresAt && tokens[hash].expiresAt == tokenExpiresAt
                     && tokens[hash].usedAt.None?
    {
      if sessionExpiresAt <= now || tokenExpiresAt <= now {
        return false;
      }
      sessions := sessions[session := Session(user, sessionExpiresAt, None)];
      tokens := tokens[hash := Token(session, tokenExpiresAt, None, None)];
      minted, chains, places := minted + {session, hash}, chains[session := [hash]], places[hash := 0];
      ok := true;
    }

    /** The locked transaction: look the token up, insert its replacement, mark it used. */
    method RefreshToken(presented: nat, replacement: nat, newExpiresAt: int) returns (outcome: Outcome)
      requires replacement !in minted
      requires forall h :: h in tokens ==> h in minted && tokens[h].session in sessions
      modifies this
      ensures outcome == Redeem(old(StateOf()), presented, replacement, newExpiresAt)
      ensures outcome.Rotated? <==> Good(old(StateOf()), presented) && newExpiresAt > now
      ensures outcome.Reused? <==> presented in old(tokens) && old(tokens)[presented].usedAt.Some?
      ensures StateOf() == Apply(old(StateOf()), Refresh(presented, replacement, newExpiresAt))
    {
      if presented !in tokens {
        return Invalid;
      }
      var lookup := tokens[presented];
      var session := sessions[lookup.session];
      if lookup.usedAt.Some? {
        return Reused(session.user, lookup.session);
      }
      if session.revokedAt.Some? || lookup.expiresAt <= now || session.expiresAt <= now {
        return Invalid;
      }
      var expiresAt := Min(newExpiresAt, session.expiresAt);
      if expiresAt <= now {
        return Failed;
      }
      ghost var chain := ChainOf(StateOf(), lookup.session);
      tokens := tokens[replacement := Token(lookup.session, expiresAt, None, None)];
      tokens := tokens[presented := lookup.(usedAt := Some(now), replacedBy := Some(replacement))];
      minted, places := minted + {replacement}, places[replacement := |chain|];
      chains := chains[lookup.session := chain + [replacement]];
      outcome := Rotated(session.user, lookup.session);
    }

    method RevokeSession(session: nat)
      modifies this
      ensures StateOf() == Apply(old(StateOf()), Revoke(session))
      ensures session in old(minted) ==> Over(StateOf(), session)
    {
      if session in sessions && sessions[session].revokedAt.None? {
        sessions := sessions[session := sessions[session].(revokedAt := Some(now))];
      }
      assert sessions == Revoked(old(StateOf()), {session});
    }
  }

  datatype UserStatus = Pending | Active | Disabled

  datatype Issued = Issued(user: nat, session: nat, refreshToken: nat)

  datatype AuthError = InvalidToken | Internal

  class AuthService {
    const sessions: SessionRepository
    const refreshTtl: nat
    var users: map<nat, UserStatus>

    constructor (sessions: SessionRepository, refreshTtl: nat, users: map<nat, UserStatus>)
      ensures this.sessions == sessions && this.refreshTtl == refreshTtl && this.users == users
    {
      this.sessions, this.refreshTtl, this.users := sessions, refreshTtl, users;
    }

    predicate MayAct(user: nat) reads this {
      user in users && users[user] != Disabled
    }

    /**
     Rotate, or on a reuse revoke the family. A rotation stands even when the account turns out to
     be disabled: then neither token is handed out and the old one is used up.
     */
    method RefreshSession(presented: nat, replacement: nat) returns (result: Result<Issued, AuthError>)
      requires Inv(sessions.StateOf()) && replacement !in sessions.minted
      modifies sessions
      ensures Inv(sessions.StateOf())
      ensures result.Ok? ==>
                && presented in old(sessions.tokens) && old(sessions.tokens)[presented].usedAt.None?
                && old(sessions.tokens)[presented].expiresAt > sessions.now
                && replacement in sessions.tokens && sessions.tokens[replacement].usedAt.None?
                && sessions.tokens[replacement].expiresAt <= sessions.now + refreshTtl
      ensures var s, s' := old(sessions.StateOf()), sessions.StateOf();
              var redeemed := Redeem(s, presented, replacement, s.now + refreshTtl);
              && (result.Ok? <==> redeemed.Rotated? && MayAct(redeemed.user))
              && (result.Ok? ==> result.value == Issued(redeemed.user, redeemed.session, replacement)
                                 && IsActive(s', redeemed.session, redeemed.user))
              && (redeemed.Rotated? ==> s' == AfterRotation(s, presented, replacement, s.now + refreshTtl))
              && (redeemed.Reused? ==> s' == Apply(s, Revoke(redeemed.session)) && Over(s', redeemed.session))
              && (redeemed.Invalid? || redeemed.Failed? ==> s' == s)
    {
      hide Inv;
      ghost var s := sessions.StateOf();
      TokensHaveSessions(s);
      StepKeepsInv(s, Refresh(presented, replacement, s.now + refreshTtl));
      var outcome := sessions.RefreshToken(presented, replacement, sessions.now + refreshTtl);
      match outcome {
        case Rotated(user, session) =>
          if !MayAct(user) {
            return Err(InvalidToken);
          }
          result := Ok(Issued(user, session, replacement));
        case Reused(_, session) =>
          StepKeepsInv(sessions.StateOf(), Revoke(session));
          sessions.RevokeSession(session);
          result := Err(InvalidToken);
        case Invalid => result := Err(InvalidToken);
        case Failed => result := Err(Internal);
      }
    }

    /** A verified access token names a session and a user; it counts only while the session does. */
    method Authenticate(session: nat, user: nat) returns (result: Result<nat, AuthError>)
      ensures result.Ok? <==> IsActive(sessions.StateOf(), session, user) && user in users && !users[user].Disabled?
      ensures result == if result.Ok? then Ok(user) else Err(InvalidToken)
      ensures Over(sessions.StateOf(), session) ==> result.Err?
    {
      if session !in sessions.sessions {
        return Err(InvalidToken);
      }
      var row := sessions.sessions[session];
      var active := row.user == user && row.revokedAt.None? && row.expiresAt > sessions.now;
      if !active || !MayAct(user) {
        return Err(InvalidToken);
      }
      result := Ok(user);
    }
  }
}
