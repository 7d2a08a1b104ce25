/**
 A reaper pass. Taken as one step it collects abandoned uploads only, object and row together, and
 drains them oldest first; `UploadReaper` is the loop itself, with everything else interleaved.
 */
module Reaping {
  import opened Common
  import opened Ordering
  import opened Uploads
  import opened Attachments

  /** The statements of a sweep over its work list, given which object deletions succeed. */
  function Sweep(r: nat, outcomes: seq<bool>): seq<Step> {
    if outcomes == [] then
      []
    else
      (if outcomes[0] then [Reap(r, Delete(true)), Reap(r, Forget)] else [Reap(r, Delete(false))])
      + Sweep(r, outcomes[1..])
  }

  function PassSteps(r: nat, ttl: nat, limit: nat, outcomes: seq<bool>): seq<Step> {
    [Reap(r, List(ttl, limit))] + Sweep(r, outcomes) + [Reap(r, Stop)]
  }

  function Collected(list: seq<Listed>, outcomes: seq<bool>): set<Listed>
    requires |list| == |outcomes|
  {
    set i | 0 <= i < |list| && outcomes[i] :: list[i]
  }

  function Without(s: State, gone: set<Listed>): State {
    s.(bucket := s.bucket - (set item | item in gone :: item.key),
       ledger := s.ledger - (set item | item in gone :: item.id))
  }

  /** The state once a reaper has collected `gone` and has `left` still to do. */
  function Swept(s: State, r: nat, gone: set<Listed>, left: seq<Listed>): State {
    Without(s, gone).(reapers := s.reapers[r := Pass(left, false)])
  }

  lemma SweptTwice(s: State, r: nat, a: set<Listed>, left: seq<Listed>, b: set<Listed>, rest: seq<Listed>)
    ensures Swept(Swept(s, r, a, left), r, b, rest) == Swept(s, r, a + b, rest)
  {
  }

  lemma SweptNothing(s: State, r: nat, left: seq<Listed>)
    requires r in s.reapers && s.reapers[r] == Pass(left, false)
    ensures Swept(s, r, {}, left) == s
  {
  }

  lemma OneDropped(s: State, r: nat, left: seq<Listed>)
    requires left != [] && r in s.reapers && s.reapers[r] == Pass(left, false)
    ensures AfterDelete(s, r, true).reapers == s.reapers[r := Pass(left, true)]
    ensures AfterForget(AfterDelete(s, r, true), r) == Swept(s, r, {left[0]}, left[1..])
  {
  }

  lemma SweepStep(s: State, r: nat, left: seq<Listed>, outcome: bool)
    requires left != [] && r in s.reapers && s.reapers[r] == Pass(left, false)
    ensures Run(s, Sweep(r, [outcome])) == Swept(s, r, if outcome then {left[0]} else {}, left[1..])
  {
    hide Run;
    var delete, forget := Reap(r, Delete(outcome)), Reap(r, Forget);
    var deleted := AfterDelete(s, r, outcome);
    RunOne(s, delete);
    RunOne(deleted, forget);
    assert Apply(s, delete) == deleted;
    if outcome {
      OneDropped(s, r, left);
      assert Apply(deleted, forget) == AfterForget(deleted, r);
      assert Sweep(r, [true]) == [delete] + [forget];
      RunAppend(s, [delete], [forget]);
    } else {
      assert Sweep(r, [false]) == [delete];
      SweptTwice(s, r, {}, left, {}, left[1..]);
      SweptNothing(s, r, left);
    }
  }

  lemma SweepHead(r: nat, outcomes: seq<bool>)
    requires outcomes != []
    ensures Sweep(r, outcomes) == Sweep(r, [outcomes[0]]) + Sweep(r, outcomes[1..])
  {
  }

  lemma {:induction false} SweepCollects(s: State, r: nat, left: seq<Listed>, outcomes: seq<bool>)
    requires r in s.reapers && s.reapers[r] == Pass(left, false) && |left| == |outcomes|
    ensures Run(s, Sweep(r, outcomes)) == Swept(s, r, Collected(left, outcomes), [])
    decreases |outcomes|
  {
    hide Run;
    if outcomes == [] {
      RunNone(s);
      SweptNothing(s, r, left);
      assert Collected(left, outcomes) == {};
    } else {
      SweepHead(r, outcomes);
      RunAppend(s, Sweep(r, [outcomes[0]]), Sweep(r, outcomes[1..]));
      SweepStep(s, r, left, outcomes[0]);
      var head := if outcomes[0] then {left[0]} else {};
      SweepCollects(Swept(s, r, head, left[1..]), r, left[1..], outcomes[1..]);
      CollectedSplits(left, outcomes);
      SweptTwice(s, r, head, left[1..], Collected(left[1..], outcomes[1..]), []);
    }
  }

  lemma CollectedSplits(list: seq<Listed>, outcomes: seq<bool>)
    requires |list| == |outcomes| && list != []
    ensures Collected(list, outcomes) == (if outcomes[0] then {list[0]} else {}) + Collected(list[1..], outcomes[1..])
  {
  }

  lemma ListedAt(s: State, r: nat, ttl: nat, limit: nat)
    requires r !in s.reapers
    ensures Apply(s, Reap(r, List(ttl, limit)))
         == s.(reapers := s.reapers[r := Pass(Abandoned(s, s.now - ttl, limit), false)])
  {
  }

  /** A pass nothing interrupts removes, for each listed upload it could delete, object and row. */
  lemma AtomicPass(s: State, r: nat, ttl: nat, limit: nat, outcomes: seq<bool>)
    requires r !in s.reapers && |outcomes| == |Abandoned(s, s.now - ttl, limit)|
    ensures Run(s, PassSteps(r, ttl, limit, outcomes))
         == Without(s, Collected(Abandoned(s, s.now - ttl, limit), outcomes))
  {
    hide Run, Apply, Sweep, Abandoned;
    var start, sweep, stop := [Reap(r, List(ttl, limit))], Sweep(r, outcomes), [Reap(r, Stop)];
    var list := Abandoned(s, s.now - ttl, limit);
    var s1 := s.(reapers := s.reapers[r := Pass(list, false)]);
    RunAppend(s, start, sweep);
    RunAppend(s, start + sweep, stop);
    ListedAt(s, r, ttl, limit);
    RunOne(s, start[0]);
    SweepCollects(s1, r, list, outcomes);
    StopRestores(s, r, list, Collected(list, outcomes));
  }

  lemma StopRestores(s: State, r: nat, list: seq<Listed>, gone: set<Listed>)
    requires r !in s.reapers
    ensures Run(Swept(s.(reapers := s.reapers[r := Pass(list, false)]), r, gone, []), [Reap(r, Stop)])
         == Without(s, gone)
  {
  }

  /** What was taken had expired unclaimed, object and row together; everything else is as it was. */
  ghost predicate Spared(s: State, s': State, cutoff: int) {
    && (forall id :: id in s.ledger && id !in s'.ledger ==>
          Expired(s, cutoff, id) && s.ledger[id].file.key !in s'.bucket)
    && (forall id :: id in s'.ledger ==> id in s.ledger && s'.ledger[id] == s.ledger[id])
    && (forall key :: key in s.bucket && key !in s'.bucket ==>
          exists id :: id in s.ledger && id !in s'.ledger && s.ledger[id].file.key == key)
    && s'.submissions == s.submissions && s'.bucket <= s.bucket
  }

  lemma SparedWithout(s: State, gone: set<Listed>, cutoff: int)
    requires forall item :: item in gone ==> Expired(s, cutoff, item.id) && item.key == s.ledger[item.id].file.key
    ensures Spared(s, Without(s, gone), cutoff)
  {
    var s' := Without(s, gone);
    forall key | key in s.bucket && key !in s'.bucket
      ensures exists id :: id in s.ledger && id !in s'.ledger && s.ledger[id].file.key == key
    {
      var item :| item in gone && item.key == key;
      assert item.id !in s'.ledger;
    }
  }

  lemma SparedIsWhole(s: State, s': State, cutoff: int)
    requires Keyed(s) && Whole(s) && Spared(s, s', cutoff)
    ensures Whole(s')
  {
    forall x, field | x in s'.submissions && field in s'.submissions[x].files ensures WholeEntry(s', x, field) {
      assert WholeEntry(s, x, field);
      var id :| id in s.ledger && Agrees(s.ledger[id], x, s.submissions[x], field);
      assert id in s'.ledger && s'.ledger[id] == s.ledger[id];
      assert forall other :: other in s.ledger && s.ledger[other].file.key == s.ledger[id].file.key ==> other == id;
    }
  }

  /**
   Such a pass never collects a claimed upload: what it removes was unclaimed and past its time,
   and attachments that were whole stay whole.
   */
  lemma AtomicPassSparesClaims(s: State, r: nat, ttl: nat, limit: nat, outcomes: seq<bool>)
    requires Holds(s) && r !in s.reapers && |outcomes| == |Abandoned(s, s.now - ttl, limit)|
    ensures var s' := Run(s, PassSteps(r, ttl, limit, outcomes));
            Spared(s, s', s.now - ttl) && (Whole(s) ==> Whole(s'))
  {
    assert Keyed(s);
    hide Run, PassSteps, Abandoned, Holds, Whole, Spared, Keyed, Without;
    var list, s' := Abandoned(s, s.now - ttl, limit), Run(s, PassSteps(r, ttl, limit, outcomes));
    AtomicPass(s, r, ttl, limit, outcomes);
    AbandonedAreExpired(s, s.now - ttl, limit);
    SparedWithout(s, Collected(list, outcomes), s.now - ttl);
    if Whole(s) { SparedIsWhole(s, s', s.now - ttl); }
  }

  // ---------- Runs in which every pass is one step ----------

  /** Anything but a reaper's statement, or a whole pass that can delete exactly the `removable` objects. */
  datatype Block = Other(step: Step) | WholePass(reaper: nat, ttl: nat, limit: nat, removable: set<nat>)

  function Outcomes(list: seq<Listed>, removable: set<nat>): seq<bool> {
    seq(|list|, i requires 0 <= i < |list| => list[i].key in removable)
  }

  function StepsOf(s: State, block: Block): seq<Step> {
    match block
    case Other(step) => if step.Reap? then [] else [step]
    case WholePass(r, ttl, limit, removable) =>
      PassSteps(r, ttl, limit, Outcomes(Abandoned(s, s.now - ttl, limit), removable))
  }

  function RunBlocks(s: State, blocks: seq<Block>): State
    decreases |blocks|
  {
    if blocks == [] then s else RunBlocks(Run(s, StepsOf(s, blocks[0])), blocks[1..])
  }

  /** Between whole passes no reaper holds a list, and every object on record is in the bucket. */
  ghost predicate Backed(s: State) {
    && s.reapers == map[]
    && (forall id :: id in s.ledger ==> s.ledger[id].file.key in s.bucket)
    && (forall u :: u in s.uploads ==> s.uploads[u].file.key in s.bucket)
  }

  lemma ChangeKeepsBacked(s: State, change: Change)
    requires Keyed(s) && Backed(s)
    ensures Backed(Changed(s, change))
  {
    hide AllClaimable, FilesMatch;
  }

  lemma PassKeepsBacked(s: State, r: nat, ttl: nat, limit: nat, removable: set<nat>)
    requires Holds(s) && Backed(s)
    ensures Backed(Run(s, StepsOf(s, WholePass(r, ttl, limit, removable))))
  {
    hide Run, Abandoned, PassSteps;
    var list := Abandoned(s, s.now - ttl, limit);
    AtomicPass(s, r, ttl, limit, Outcomes(list, removable));
    AbandonedAreExpired(s, s.now - ttl, limit);
    var gone := Collected(list, Outcomes(list, removable));
    assert forall item :: item in gone ==> item.id in s.ledger && item.key == s.ledger[item.id].file.key;
  }

  lemma BlockKeepsWhole(s: State, block: Block)
    requires Holds(s) && Whole(s) && Backed(s)
    ensures var s' := Run(s, StepsOf(s, block));
            Holds(s') && Whole(s') && Backed(s')
  {
    hide Run, Holds, Whole, Changed, Acted, Backed, Abandoned, PassSteps, Keyed, Severs, Outcomes;
    RunKeepsHolds(s, StepsOf(s, block));
    match block
    case Other(step) =>
      if step.Reap? {
        RunNone(s);
      } else {
        RunOne(s, step);
        OtherKeepsWhole(s, step);
      }
    case WholePass(r, ttl, limit, removable) =>
      PassKeepsBacked(s, r, ttl, limit, removable);
      WholePassKeepsWhole(s, r, ttl, limit, removable);
  }

  lemma WholePassKeepsWhole(s: State, r: nat, ttl: nat, limit: nat, removable: set<nat>)
    requires Holds(s) && Whole(s) && Backed(s)
    ensures Whole(Run(s, StepsOf(s, WholePass(r, ttl, limit, removable))))
  {
    hide Run, Holds, Whole, Abandoned, PassSteps;
    AtomicPassSparesClaims(s, r, ttl, limit, Outcomes(Abandoned(s, s.now - ttl, limit), removable));
  }

  /** Every row's object being there, no submission can claim one that is not. */
  lemma BackedIsNeverSevered(s: State, step: Step)
    requires Holds(s) && Backed(s) && !step.Reap?
    ensures !Severs(s, step)
  {
  }

  lemma OtherKeepsWhole(s: State, step: Step)
    requires Holds(s) && Whole(s) && Backed(s) && !step.Reap?
    ensures var s' := Apply(s, step);
            Whole(s') && Backed(s')
  {
    hide Whole, Changed, Severs;
    BackedIsNeverSevered(s, step);
    SeversExactly(s, step);
    if step.Request? { ChangeKeepsBacked(s, step.change); }
  }

  /**
   With each reaper pass as one step, attachments stay exclusive and whole:
   every `files` entry has its object and a ledger row agreeing on form, field, file and submission.
   */
  lemma {:induction false} WholeWhenPassesAreAtomic(s: State, blocks: seq<Block>)
    requires Holds(s) && Whole(s) && Backed(s)
    ensures Holds(RunBlocks(s, blocks)) && Whole(RunBlocks(s, blocks))
    decreases |blocks|
  {
    hide Run, Holds, Whole, Backed, StepsOf;
    if blocks != [] {
      BlockKeepsWhole(s, blocks[0]);
      WholeWhenPassesAreAtomic(Run(s, StepsOf(s, blocks[0])), blocks[1..]);
    }
  }

  /** From the empty stores on, whatever is uploaded, submitted and deleted between whole passes. */
  lemma WholeFromTheStart(blocks: seq<Block>)
    ensures Holds(RunBlocks(Init(), blocks)) && Whole(RunBlocks(Init(), blocks))
  {
    WholeWhenPassesAreAtomic(Init(), blocks);
  }

  // ---------- Draining ----------

  function Listing(s: State, ttl: nat, limit: nat): set<Listed> {
    var list := Abandoned(s, s.now - ttl, limit);
    set item | item in list
  }

  /** Time passes, then an uninterrupted pass in which every object can be deleted. */
  function Round(s: State, ttl: nat, limit: nat, seconds: nat): State {
    var later := s.(now := s.now + seconds);
    Without(later, Listing(later, ttl, limit))
  }

  function Rounds(s: State, ttl: nat, limit: nat, waits: seq<nat>): State
    decreases |waits|
  {
    if waits == [] then s else Rounds(Round(s, ttl, limit, waits[0]), ttl, limit, waits[1..])
  }

  /** A round is a run of the machine. */
  lemma RoundIsAPass(s: State, r: nat, ttl: nat, limit: nat, seconds: nat, outcomes: seq<bool>)
    requires r !in s.reapers && forall i :: 0 <= i < |outcomes| ==> outcomes[i]
    requires |outcomes| == |Abandoned(Apply(s, Tick(seconds)), s.now + seconds - ttl, limit)|
    ensures Run(Apply(s, Tick(seconds)), PassSteps(r, ttl, limit, outcomes)) == Round(s, ttl, limit, seconds)
  {
    hide Run, PassSteps, Abandoned;
    var later := s.(now := s.now + seconds);
    assert Apply(s, Tick(seconds)) == later;
    AtomicPass(later, r, ttl, limit, outcomes);
    CollectedAll(Abandoned(later, later.now - ttl, limit), outcomes);
  }

  lemma CollectedAll(list: seq<Listed>, outcomes: seq<bool>)
    requires |list| == |outcomes| && forall i :: 0 <= i < |outcomes| ==> outcomes[i]
    ensures Collected(list, outcomes) == set item | item in list
  {
  }

  /** What a round leaves of the uploads that had expired by `cutoff`: those not on its page. */
  lemma RoundLeaves(s: State, ttl: nat, limit: nat, cutoff: int)
    ensures var page := FirstN(ExpiredKeys(s, s.now - ttl), limit);
            ExpiredKeys(Without(s, Listing(s, ttl, limit)), cutoff) <= ExpiredKeys(s, cutoff) - (set k | k in page)
  {
    hide FirstN;
    var list, page := Abandoned(s, s.now - ttl, limit), FirstN(ExpiredKeys(s, s.now - ttl), limit);
    var s' := Without(s, Listing(s, ttl, limit));
    assert forall i :: 0 <= i < |page| ==> list[i] in Listing(s, ttl, limit) && page[i].id !in s'.ledger;
  }

  /** Uploads that expire meanwhile sort behind the ones that already had, and do not hold them up. */
  lemma RoundShrinksBacklog(s: State, ttl: nat, limit: nat, seconds: nat, cutoff: int)
    requires cutoff <= s.now + seconds - ttl
    ensures Round(s, ttl, limit, seconds).now == s.now + seconds
    ensures |ExpiredKeys(Round(s, ttl, limit, seconds), cutoff)|
         <= if |ExpiredKeys(s, cutoff)| <= limit then 0 else |ExpiredKeys(s, cutoff)| - limit
  {
    hide Listing, FirstN, IsPage, Abandoned;
    var later := s.(now := s.now + seconds);
    var all := ExpiredKeys(later, later.now - ttl);
    RoundLeaves(later, ttl, limit, cutoff);
    var page := FirstN(all, limit);
    var left := ExpiredKeys(later, cutoff) - (set k | k in page);
    SubsetSize(ExpiredKeys(Round(s, ttl, limit, seconds), cutoff), left);
    assert ExpiredKeys(later, cutoff) == ExpiredKeys(s, cutoff);
    BacklogTaken(all, ExpiredKeys(later, cutoff), cutoff, limit);
  }

  lemma BacklogTaken(all: set<Key>, backlog: set<Key>, cutoff: int, limit: nat)
    requires backlog <= all && forall k :: k in all ==> (k in backlog <==> k.at < cutoff)
    ensures var page := FirstN(all, limit);
            |backlog - (set k | k in page)| <= if |backlog| <= limit then 0 else |backlog| - limit
  {
    var page := FirstN(all, limit);
    var taken := set i | 0 <= i < |page| :: page[i];
    assert taken == set k | k in page;
    if left :| left in backlog - taken {
      assert forall i :: 0 <= i < |page| ==> Before(page[i], left);
      assert taken <= backlog;
      SetOfDistinct(page);
      if |all| <= limit { PageOfEverything(page, all, limit); }
      assert |backlog - taken| == |backlog| - limit;
    } else {
      assert backlog - taken == {};
    }
  }

  lemma NoneExpired(s: State, cutoff: int, id: nat)
    requires |ExpiredKeys(s, cutoff)| <= 0
    ensures !Expired(s, cutoff, id)
  {
    assert forall other :: Expired(s, cutoff, other) ==>
        Key(s.ledger[other].createdAt, other) in ExpiredKeys(s, cutoff);
  }

  /**
   Draining: over a quiet table, n uploads that had expired are all collected within n / limit
   rounds, rounded up, however many more expire in the meantime.
   */
  lemma {:induction false} QuietTableDrains(s: State, ttl: nat, limit: nat, waits: seq<nat>, cutoff: int)
    requires limit > 0 && cutoff <= s.now - ttl
    requires |ExpiredKeys(s, cutoff)| <= |waits| * limit
    ensures forall id :: !Expired(Rounds(s, ttl, limit, waits), cutoff, id)
    decreases |waits|
  {
    hide Round, ExpiredKeys;
    if waits == [] {
      forall id ensures !Expired(s, cutoff, id) {
        NoneExpired(s, cutoff, id);
      }
    } else {
      RoundShrinksBacklog(s, ttl, limit, waits[0], cutoff);
      assert |waits| * limit == |waits[1..]| * limit + limit;
      QuietTableDrains(Round(s, ttl, limit, waits[0]), ttl, limit, waits[1..], cutoff);
    }
  }

  // ---------- The loop ----------

  predicate NotBy(step: Step, reaper: nat) {
    step.Reap? ==> step.reaper != reaper
  }

  lemma {:induction false} OthersLeaveMe(s: State, steps: seq<Step>, me: nat)
    requires forall i :: 0 <= i < |steps| ==> NotBy(steps[i], me)
    ensures me in Run(s, steps).reapers <==> me in s.reapers
    ensures me in s.reapers ==> Run(s, steps).reapers[me] == s.reapers[me]
    decreases |steps|
  {
    if steps != [] {
      OneLeavesMe(s, steps[0], me);
      OthersLeaveMe(Apply(s, steps[0]), steps[1..], me);
    }
  }

  lemma OneLeavesMe(s: State, step: Step, me: nat)
    requires NotBy(step, me)
    ensures me in Apply(s, step).reapers <==> me in s.reapers
    ensures me in s.reapers ==> Apply(s, step).reapers[me] == s.reapers[me]
  {
    hide Changed, Acted;
    match step
    case Request(change) => RequestsLeaveReapers(s, change);
    case Reap(r, action) => OtherReaperStays(s, r, action, me);
    case Tick(_) =>
  }

  lemma RequestsLeaveReapers(s: State, change: Change)
    ensures Changed(s, change).reapers == s.reapers
  {
  }

  lemma OtherReaperStays(s: State, r: nat, action: Action, other: nat)
    requires other != r
    ensures other in Acted(s, r, action).reapers <==> other in s.reapers
    ensures other in s.reapers ==> Acted(s, r, action).reapers[other] == s.reapers[other]
  {
    hide Abandoned;
  }

  function Count(outcomes: seq<bool>): nat {
    if outcomes == [] then 0 else (if outcomes[0] then 1 else 0) + Count(outcomes[1..])
  }

  lemma {:induction false} SweepAppend(r: nat, outcomes: seq<bool>, last: bool)
    ensures Sweep(r, outcomes + [last]) == Sweep(r, outcomes) + Sweep(r, [last])
    ensures Count(outcomes + [last]) == Count(outcomes) + if last then 1 else 0
  {
    if outcomes == [] {
      assert outcomes + [last] == [last];
    } else {
      assert (outcomes + [last])[1..] == outcomes[1..] + [last];
      SweepAppend(r, outcomes[1..], last);
    }
  }

  /** What an action makes of the reaper's own entry; what a `List` finds depends on the tables. */
  function PassAfter(s: State, r: nat, action: Action): Option<Pass> {
    if action.Stop? then None
    else if r !in s.reapers then (if action.List? then Some(Pass([], false)) else None)
    else if action.Delete? && CanDelete(s, r) then
      Some(if action.succeeds then Pass(s.reapers[r].left, true) else Pass(s.reapers[r].left[1..], false))
    else if action.Forget? && CanForget(s, r) then Some(Pass(s.reapers[r].left[1..], false))
    else Some(s.reapers[r])
  }

  lemma OwnEntry(s: State, r: nat, action: Action)
    ensures (r in Acted(s, r, action).reapers) == PassAfter(s, r, action).Some?
    ensures !(action.List? && r !in s.reapers) && r in Acted(s, r, action).reapers ==>
              Some(Acted(s, r, action).reapers[r]) == PassAfter(s, r, action)
    ensures action.List? && r !in s.reapers ==>
              Acted(s, r, action).reapers[r] == Pass(Abandoned(s, s.now - action.ttl, action.limit), false)
  {
    hide Abandoned;
  }

  class UploadReaper {
    const me: nat
    const ttl: nat
    var state: State          // the two stores, shared with everybody else
    var turn: nat
    ghost var start: State
    ghost var trace: seq<Step>
    ghost var own: seq<Step>  // this reaper's own steps of the trace

    constructor (me: nat, ttl: nat, state: State)
      ensures this.me == me && this.ttl == ttl && this.state == state && Tracks() && own == []
    {
      this.me, this.ttl, this.state, this.turn := me, ttl, state, 0;
      this.start, this.trace, this.own := state, [], [];
    }

    ghost predicate Tracks() reads this {
      state == Run(start, trace)
    }

    /** Everybody else, up to this reaper's next statement. */
    method Await(others: nat -> seq<Step>)
      requires Tracks() && forall k, i :: 0 <= i < |others(k)| ==> NotBy(others(k)[i], me)
      modifies this
      ensures Tracks() && start == old(start) && own == old(own) && trace == old(trace) + others(old(turn))
      ensures state == Run(old(state), others(old(turn)))
      ensures me in state.reapers <==> me in old(state).reapers
      ensures me in state.reapers ==> state.reapers[me] == old(state).reapers[me]
    {
      hide Run;
      OthersLeaveMe(state, others(turn), me);
      RunAppend(start, trace, others(turn));
      state := Run(state, others(turn));
      trace, turn := trace + others(turn), turn + 1;
    }

    method Do(action: Action)
      requires Tracks()
      modifies this
      ensures Tracks() && start == old(start) && turn == old(turn)
      ensures trace == old(trace) + [Reap(me, action)] && own == old(own) + [Reap(me, action)]
      ensures state == Acted(old(state), me, action)
      ensures (me in state.reapers) == PassAfter(old(state), me, action).Some?
      ensures !(action.List? && me !in old(state).reapers) && me in state.reapers ==>
                Some(state.reapers[me]) == PassAfter(old(state), me, action)
      ensures action.List? && me !in old(state).reapers ==>
                state.reapers[me] == Pass(Abandoned(old(state), old(state).now - action.ttl, action.limit), false)
    {
      hide Run, Acted, Changed, PassAfter, Abandoned;
      OwnEntry(state, me, action);
      RunAppend(start, trace, [Reap(me, action)]);
      RunOne(state, Reap(me, action));
      state := Apply(state, Reap(me, action));
      trace, own := trace + [Reap(me, action)], own + [Reap(me, action)];
    }

    /** The object first, then its row; a failed deletion leaves the row for the next pass. */
    method CollectOne(deletes: nat -> bool, forgets: nat -> bool,
        others: nat -> seq<Step>) returns (outcome: Option<bool>)
      requires Tracks() && forall k, i :: 0 <= i < |others(k)| ==> NotBy(others(k)[i], me)
      requires CanDelete(state, me)
      modifies this
      ensures Tracks() && start == old(start)
      ensures me in state.reapers
      ensures outcome.Some? ==> state.reapers[me] == Pass(old(state).reapers[me].left[1..], false)
      ensures own == old(own) + if outcome.Some? then Sweep(me, [outcome.value]) else [Reap(me, Delete(true))]
    {
      hide Run, Acted;
      var removed := deletes(turn);
      Await(others);
      Do(Delete(removed));
      if !removed {
        assert Sweep(me, [false]) == [Reap(me, Delete(false))];
        return Some(false);
      }
      if !forgets(turn) {
        return None;
      }
      Await(others);
      Do(Forget);
      assert Sweep(me, [true]) == [Reap(me, Delete(true)), Reap(me, Forget)];
      outcome := Some(true);
    }

    method ListAbandoned(others: nat -> seq<Step>) returns (abandoned: seq<Listed>)
      requires Tracks() && forall k, i :: 0 <= i < |others(k)| ==> NotBy(others(k)[i], me)
      requires me !in state.reapers
      modifies this
      ensures Tracks() && start == old(start) && own == old(own) + [Reap(me, List(ttl, REAP_BATCH))]
      ensures me in state.reapers && state.reapers[me] == Pass(abandoned, false)
      ensures var s := Run(old(state), others(old(turn)));
              abandoned == Abandoned(s, s.now - ttl, REAP_BATCH)
    {
      hide Run, Acted, Abandoned;
      Await(others);
      Do(List(ttl, REAP_BATCH));
      abandoned := state.reapers[me].left;
    }

    /**
     One pass: the object first, then its row, and on to the next when the object will not go.
     `None`: forgetting a row failed, which ends the pass there with the object already gone.
     */
    method ReapAbandonedUploads(deletes: nat -> bool, forgets: nat -> bool, others: nat -> seq<Step>)
      returns (collected: Option<nat>, ghost outcomes: seq<bool>)
      requires Tracks() && forall k, i :: 0 <= i < |others(k)| ==> NotBy(others(k)[i], me)
      requires me !in state.reapers
      modifies this
      ensures Tracks() && start == old(start) && me !in state.reapers
      ensures collected.Some? ==> own == old(own) + PassSteps(me, ttl, REAP_BATCH, outcomes)
      ensures collected.Some? ==> collected.value == Count(outcomes)
      ensures var s := Run(old(state), others(old(turn)));
              if collected.Some? then |outcomes| == |Abandoned(s, s.now - ttl, REAP_BATCH)|
              else |outcomes| < |Abandoned(s, s.now - ttl, REAP_BATCH)|
      ensures collected.None? ==>
                own == old(own) + [Reap(me, List(ttl, REAP_BATCH))] + Sweep(me, outcomes)
                       + [Reap(me, Delete(true)), Reap(me, Stop)]
    {
      hide Run, Acted, Abandoned, Tracks;
      var abandoned := ListAbandoned(others);
      outcomes := [];
      var count, i := 0, 0;
      while i < |abandoned|
        invariant 0 <= i <= |abandoned| && |outcomes| == i && count == Count(outcomes)
        invariant Tracks() && start == old(start)
        invariant me in state.reapers && state.reapers[me] == Pass(abandoned[i..], false)
        invariant own == old(own) + [Reap(me, List(ttl, REAP_BATCH))] + Sweep(me, outcomes)
      {
        var outcome := CollectOne(deletes, forgets, others);
        if outcome.None? {
          Do(Stop);
          return None, outcomes;
        }
        SweepAppend(me, outcomes, outcome.value);
        outcomes, i := outcomes + [outcome.value], i + 1;
        if outcome.value { count := count + 1; }
      }
      Do(Stop);
      collected := Some(count);
    }
  }
}
