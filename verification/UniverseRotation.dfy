/** Confirmed rotation of the scanner's symbol universe. */
module UniverseRotation {
  import opened Prelude

  datatype Universe = Universe(tradable: set<string>, surveillance: set<string>, context: set<string>)
  datatype Signature = Signature(tradable: set<string>, context: set<string>)

  function SignatureOf(u: Universe): Signature { Signature(u.tradable, u.context) }

  /** `active` is the universe the runtime was last told about. */
  datatype Scanner = Scanner(universe: Option<Universe>, pending: Option<Signature>, confirmations: nat, active: Option<Universe>)

  /** A poll of the selector, with the symbols whose PAPER lifecycle is active at that moment. */
  datatype Op =
    | PollFails
    | Poll(candidate: Universe, paper: set<string>)
    | Activate(candidate: Universe)
    | ActivationFails(candidate: Universe)

  /** An empty selection is treated like a failed poll. */
  predicate Usable(op: Op) { op.Poll? && op.candidate.tradable != {} }

  predicate Protected(current: Universe, candidate: Universe, paper: set<string>) {
    paper * (current.tradable - candidate.tradable) != {}
  }

  function PollStep(s: Scanner, candidate: Universe, paper: set<string>, required: nat): (Scanner, Option<Universe>) {
    if s.universe.None? || candidate.tradable == {} then (s, None)
    else
      var current, signature := s.universe.value, SignatureOf(candidate);
      if signature == SignatureOf(current) then
        var reset := s.(pending := None, confirmations := 0);
        (if candidate.surveillance != current.surveillance
         then reset.(universe := Some(candidate), active := Some(candidate)) else reset, None)
      else if Protected(current, candidate, paper) then (s.(pending := None, confirmations := 0), None)
      else
        var n := if s.pending == Some(signature) then s.confirmations + 1 else 1;
        (s.(pending := Some(signature), confirmations := n), if n >= required then Some(candidate) else None)
  }

  function Step(s: Scanner, op: Op, required: nat): (Scanner, Option<Universe>) {
    match op
    case PollFails => (s, None)
    case Poll(candidate, paper) => PollStep(s, candidate, paper, required)
    case Activate(u) => (Scanner(Some(u), None, 0, Some(u)), None)
    case ActivationFails(u) => (s.(active := Some(u)), None)
  }

  /** The scanner after a run of polls and activations, from the universe it was prepared with, if any. */
  function Run(start: Option<Universe>, ops: seq<Op>, required: nat): Scanner {
    if ops == [] then Scanner(start, None, 0, start)
    else Step(Run(start, ops[..|ops| - 1], required), ops[|ops| - 1], required).0
  }

  function ReleasedAt(start: Option<Universe>, ops: seq<Op>, k: nat, required: nat): Option<Universe>
    requires k < |ops|
  {
    Step(Run(start, ops[..k], required), ops[k], required).1
  }

  // ---------------------------------------------------------------- the evidence behind a release

  /** Poll k showed the changed signature sig, and no symbol with an active PAPER lifecycle would leave. */
  ghost predicate Votes(start: Option<Universe>, ops: seq<Op>, k: nat, sig: Signature, required: nat)
    requires k < |ops|
  {
    var s := Run(start, ops[..k], required);
    && ops[k].Poll? && s.universe.Some?
    && var current, seen := s.universe.value, ops[k].candidate;
       && seen.tradable != {} && seen.tradable == sig.tradable && seen.context == sig.context
       && (seen.tradable != current.tradable || seen.context != current.context)
       && forall symbol :: symbol in ops[k].paper && symbol in current.tradable ==> symbol in seen.tradable
  }

  lemma VotesIff(start: Option<Universe>, ops: seq<Op>, k: nat, sig: Signature, required: nat)
    requires k < |ops|
    ensures var s := Run(start, ops[..k], required);
            Votes(start, ops, k, sig, required) <==>
            && Usable(ops[k]) && s.universe.Some? && SignatureOf(ops[k].candidate) == sig
            && sig != SignatureOf(s.universe.value) && !Protected(s.universe.value, ops[k].candidate, ops[k].paper)
  {
    if ops[k].Poll? && Run(start, ops[..k], required).universe.Some? {
      ProtectedIff(Run(start, ops[..k], required).universe.value, ops[k].candidate, ops[k].paper);
    }
  }

  lemma ProtectedIff(current: Universe, candidate: Universe, paper: set<string>)
    ensures Protected(current, candidate, paper) <==>
            exists symbol :: symbol in paper && symbol in current.tradable && symbol !in candidate.tradable
  {
    var leaving := paper * (current.tradable - candidate.tradable);
    assert forall symbol :: symbol in leaving <==> symbol in paper && symbol in current.tradable && symbol !in candidate.tradable;
  }

  /** A failed or empty poll, or an activation that fails part-way: nothing is reset and nothing counted. */
  predicate Neutral(op: Op) {
    op.PollFails? || op.ActivationFails? || (op.Poll? && op.candidate.tradable == {})
  }

  /** From call i on nothing was reset, and every usable poll votes for sig. */
  ghost predicate AllAgree(start: Option<Universe>, ops: seq<Op>, i: nat, sig: Signature, required: nat) {
    i <= |ops| && forall k :: i <= k < |ops| ==> Neutral(ops[k]) || Votes(start, ops, k, sig, required)
  }

  function UsableCount(ops: seq<Op>, i: nat): nat {
    if i >= |ops| then 0
    else UsableCount(ops[..|ops| - 1], i) + if Usable(ops[|ops| - 1]) then 1 else 0
  }

  lemma AgreePrefix(start: Option<Universe>, ops: seq<Op>, i: nat, sig: Signature, required: nat)
    requires i < |ops|
    ensures AllAgree(start, ops, i, sig, required) <==>
            && AllAgree(start, ops[..|ops| - 1], i, sig, required)
            && var k := |ops| - 1;
               Neutral(ops[k]) || Votes(start, ops, k, sig, required)
  {
    var front := ops[..|ops| - 1];
    assert forall k :: 0 <= k < |front| ==> front[k] == ops[k] && front[..k] == ops[..k];
    assert forall k :: 0 <= k < |front| ==> (Votes(start, front, k, sig, required) <==> Votes(start, ops, k, sig, required));
  }

  /** Without a universe every poll is skipped, so no signature is pending. */
  lemma {:induction false} PendingNeedsUniverse(start: Option<Universe>, ops: seq<Op>, required: nat)
    ensures Run(start, ops, required).pending.Some? ==> Run(start, ops, required).universe.Some? && Run(start, ops, required).confirmations >= 1
    ensures Run(start, ops, required).pending.None? ==> Run(start, ops, required).confirmations == 0
  {
    if ops != [] {
      PendingNeedsUniverse(start, ops[..|ops| - 1], required);
    }
  }

  /** The counter is backed by that many agreeing polls in a row. */
  lemma {:induction false} ConfirmationsAreBacked(start: Option<Universe>, ops: seq<Op>, required: nat)
    requires Run(start, ops, required).pending.Some?
    ensures exists i: nat :: AllAgree(start, ops, i, Run(start, ops, required).pending.value, required)
                          && UsableCount(ops, i) == Run(start, ops, required).confirmations
  {
    var k := |ops| - 1;
    var front := ops[..k];
    var s, t := Run(start, front, required), Run(start, ops, required);
    PendingNeedsUniverse(start, front, required);
    VotesIff(start, ops, k, t.pending.value, required);
    hide Votes, Protected;
    if s.pending == t.pending {
      ConfirmationsAreBacked(start, front, required);
      var i: nat :| AllAgree(start, front, i, s.pending.value, required) && UsableCount(front, i) == s.confirmations;
      assert i < |ops|;
      AgreePrefix(start, ops, i, t.pending.value, required);
      assert Usable(ops[k]) ==> Votes(start, ops, k, t.pending.value, required);
    } else {
      assert Votes(start, ops, k, t.pending.value, required);
      AgreePrefix(start, ops, k, t.pending.value, required);
      assert UsableCount(ops, k) == 1;
    }
  }

  /** Any row of agreeing polls is counted. */
  lemma {:induction false} AgreementIsCounted(start: Option<Universe>, ops: seq<Op>, i: nat, sig: Signature, required: nat)
    requires AllAgree(start, ops, i, sig, required) && UsableCount(ops, i) >= 1
    ensures Run(start, ops, required).pending == Some(sig) && Run(start, ops, required).confirmations >= UsableCount(ops, i)
    decreases |ops|
  {
    var front := ops[..|ops| - 1];
    AgreePrefix(start, ops, i, sig, required);
    VotesIff(start, ops, |ops| - 1, sig, required);
    hide Votes, Protected;
    if UsableCount(front, i) >= 1 {
      AgreementIsCounted(start, front, i, sig, required);
    }
  }

  /** Calls i to k are a row of agreeing polls, at least `required` of them usable. */
  ghost predicate ConfirmedRow(start: Option<Universe>, ops: seq<Op>, k: nat, i: nat, sig: Signature, required: nat)
    requires k < |ops|
  {
    AllAgree(start, ops[..k + 1], i, sig, required) && UsableCount(ops[..k + 1], i) >= required
  }

  /**
   A poll releases a rotation exactly when it is the last of a row of at least `required` usable polls,
   failed and empty ones skipped, that all showed the same changed signature with nothing reset in
   between and no active PAPER symbol leaving.
   */
  lemma ReleasedIffConfirmed(start: Option<Universe>, ops: seq<Op>, k: nat, required: nat)
    requires required >= 1 && k < |ops| && Usable(ops[k])
    ensures var sig := SignatureOf(ops[k].candidate);
            ReleasedAt(start, ops, k, required).Some? <==>
            exists i: nat :: ConfirmedRow(start, ops, k, i, sig, required)
    ensures ReleasedAt(start, ops, k, required).Some? ==>
              && ReleasedAt(start, ops, k, required) == Some(ops[k].candidate)
              && Votes(start, ops, k, SignatureOf(ops[k].candidate), required)
  {
    var upto, sig := ops[..k + 1], SignatureOf(ops[k].candidate);
    assert upto[..k] == ops[..k] && upto[k] == ops[k];
    var s := Run(start, ops[..k], required);
    assert Run(start, upto, required) == Step(s, ops[k], required).0;
    VotesIff(start, ops, k, sig, required);
    VotesIff(start, upto, k, sig, required);
    hide Votes, Protected;
    if ReleasedAt(start, ops, k, required).Some? {
      ConfirmationsAreBacked(start, upto, required);
      var i: nat :| AllAgree(start, upto, i, sig, required) && UsableCount(upto, i) == Run(start, upto, required).confirmations;
      assert ConfirmedRow(start, ops, k, i, sig, required);
    }
    if i: nat :| ConfirmedRow(start, ops, k, i, sig, required) {
      AgreementIsCounted(start, upto, i, sig, required);
      AgreePrefix(start, upto, i, sig, required);
    }
  }

  // ---------------------------------------------------------------- the universe in force

  /** The call sets the universe: an activation, or a usable poll of the tradable and context symbols in force. */
  ghost predicate Shows(s: Scanner, op: Op) {
    || op.Activate?
    || (op.Poll? && op.candidate.tradable != {} && s.universe.Some? &&
        op.candidate.tradable == s.universe.value.tradable && op.candidate.context == s.universe.value.context)
  }

  /** The call tells the runtime: any activation, failing ones too, or such a poll with other surveillance symbols. */
  ghost predicate Tells(s: Scanner, op: Op) {
    || op.ActivationFails? || op.Activate?
    || (Shows(s, op) && op.candidate.surveillance != s.universe.value.surveillance)
  }

  lemma StepShows(s: Scanner, op: Op, required: nat)
    ensures var t := Step(s, op, required).0;
            && t.universe == (if Shows(s, op) then Some(op.candidate) else s.universe)
            && t.active == (if Tells(s, op) then Some(op.candidate) else s.active)
  {
  }

  /** The universe in force is the last one shown, and the runtime's the last one it was told. */
  lemma {:induction false} UniverseIsLastShown(start: Option<Universe>, ops: seq<Op>, k: nat, required: nat)
    requires k < |ops|
    ensures var s := Run(start, ops[..k], required);
            && (Shows(s, ops[k]) && (forall j :: k < j < |ops| ==> !Shows(Run(start, ops[..j], required), ops[j])) ==>
                Run(start, ops, required).universe == Some(ops[k].candidate))
            && (Tells(s, ops[k]) && (forall j :: k < j < |ops| ==> !Tells(Run(start, ops[..j], required), ops[j])) ==>
                Run(start, ops, required).active == Some(ops[k].candidate))
    decreases |ops|
  {
    hide Shows, Tells, Step;
    var front := ops[..|ops| - 1];
    StepShows(Run(start, front, required), ops[|front|], required);
    if k < |front| {
      UniverseIsLastShown(start, front, k, required);
      assert forall j :: 0 <= j < |front| ==> front[..j] == ops[..j] && front[j] == ops[j];
    }
  }

  /** As long as the runtime was told of the universe in force, what is shown is told unless nothing changed. */
  lemma ShowsIsTold(s: Scanner, op: Op)
    ensures !op.ActivationFails? && Tells(s, op) ==> Shows(s, op)
    ensures Shows(s, op) && !Tells(s, op) ==> s.universe == Some(op.candidate)
  {
  }

  /** While nothing is shown the starting universe stays. */
  lemma {:induction false} UniverseOtherwiseStays(start: Option<Universe>, ops: seq<Op>, required: nat)
    requires forall j :: 0 <= j < |ops| ==> !Shows(Run(start, ops[..j], required), ops[j])
    ensures Run(start, ops, required).universe == start
  {
    if ops != [] {
      hide Step, Shows, Tells;
      var front := ops[..|ops| - 1];
      StepShows(Run(start, front, required), ops[|front|], required);
      assert forall j :: 0 <= j < |front| ==> front[..j] == ops[..j] && front[j] == ops[j];
      UniverseOtherwiseStays(start, front, required);
    }
  }

  /** Only a failed activation parts the universe the runtime knows from the one in force. */
  lemma {:induction false} RuntimeKnowsUniverse(start: Option<Universe>, ops: seq<Op>, required: nat)
    requires forall j :: 0 <= j < |ops| ==> !ops[j].ActivationFails?
    ensures Run(start, ops, required).active == Run(start, ops, required).universe
  {
    if ops != [] {
      hide Step, Shows, Tells;
      var front := ops[..|ops| - 1];
      StepShows(Run(start, front, required), ops[|front|], required);
      RuntimeKnowsUniverse(start, front, required);
      ShowsIsTold(Run(start, front, required), ops[|front|]);
    }
  }

  // ---------------------------------------------------------------- the scanner as it runs

  class MarketScanner {
    const required: nat
    var universe: Option<Universe>
    var pending: Option<Signature>
    var confirmations: nat
    var active: Option<Universe>

    ghost function State(): Scanner
      reads this
    {
      Scanner(universe, pending, confirmations, active)
    }

    constructor (prepared: Universe, required: nat)
      ensures this.required == required && State() == Run(Some(prepared), [], required)
    {
      this.required := required;
      universe, pending, confirmations, active := Some(prepared), None, 0, Some(prepared);
    }

    method PollUniverseCandidate(answer: Option<Universe>, paper: set<string>) returns (released: Option<Universe>)
      modifies this
      ensures (State(), released) == Step(old(State()), if answer.None? then PollFails else Poll(answer.value, paper), required)
    {
      if universe.None? || answer.None? || answer.value.tradable == {} {
        return None;
      }
      var current, candidate := universe.value, answer.value;
      if SignatureOf(candidate) == SignatureOf(current) {
        pending, confirmations := None, 0;
        if candidate.surveillance != current.surveillance {
          active := Some(candidate);
          universe := Some(candidate);
        }
        return None;
      }
      var outgoing := current.tradable - candidate.tradable;
      if paper * outgoing != {} {
        pending, confirmations := None, 0;
        return None;
      }
      if pending == Some(SignatureOf(candidate)) {
        confirmations := confirmations + 1;
      } else {
        pending, confirmations := Some(SignatureOf(candidate)), 1;
      }
      released := if confirmations >= required then Some(candidate) else None;
    }

    /** The runtime is told first; a failing funding refresh or bootstrap then leaves the rest as it was. */
    method ActivateUniverse(candidate: Universe, loadFails: bool) returns (ok: bool)
      modifies this
      ensures ok == !loadFails
      ensures State() == Step(old(State()), if loadFails then ActivationFails(candidate) else Activate(candidate), required).0
    {
      active := Some(candidate);
      ok := !loadFails;
      if !ok {
        return;
      }
      universe := Some(candidate);
      pending, confirmations := None, 0;
    }
  }
}
