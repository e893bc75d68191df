/**
 The bounded user-stream buffer and its REST fence.

 `Buffer` is the buffer's state as a value and `Step` one call on it. The class at the end is the
 mutable buffer, each of whose methods is proved to be the corresponding step.
 */
module UserStream {
  import opened Prelude

  datatype EventType =
    | AccountUpdate | OrderTradeUpdate | AlgoUpdate | AccountConfigUpdate | TriggerReject
    | MarginCall | TradeLite | StrategyUpdate | GridUpdate | ListenKeyExpired

  datatype Key = Key(transaction: nat, event: nat)

  /** The payload itself is never inspected by the buffer; its digest is the id. */
  datatype Event = Event(id: string, kind: EventType, eventTime: nat, transactionTime: Option<nat>) {
    function OrderingKey(): Key {
      Key(if transactionTime.Some? then transactionTime.value else eventTime, eventTime)
    }
  }

  predicate Before(a: Key, b: Key) {
    a.transaction < b.transaction || (a.transaction == b.transaction && a.event < b.event)
  }

  datatype Health = Healthy | Degraded | Disconnected | Expired
  datatype IngestStatus = Accepted | Duplicate | OutOfOrder | Overflow | Invalid

  /** Fence identity of one REST attempt. */
  datatype Session = Session(generation: nat, startSequence: nat, pendingIds: seq<string>)

  datatype Limits = Limits(queue: nat, dedupe: nat) {
    predicate Valid() { queue >= 1 && dedupe >= 1 }
  }

  datatype Buffer = Buffer(
    queue: seq<Event>,
    dedupeOrder: seq<string>,
    dedupeIds: set<string>,
    lastOrdering: map<EventType, Key>,
    health: Health,
    ingestSequence: nat,
    generation: nat,
    active: Option<Session>,
    crossedIds: seq<string>,
    interference: bool)

  datatype Op =
    | Ingest(event: Event)
    | IngestRaw(parsed: Option<Event>)
    | Drain(limit: Option<int>)
    | MarkDisconnected
    | Begin
    | Complete(session: Session, snapshotId: string, snapshotCursor: string, deferRecovery: bool)
    | Validate(session: Session)
    | Finalize(session: Session)
    | Fence(session: Session)
    | MarkComplete

  datatype Reply =
    | Ingested(status: IngestStatus)
    | Removed(events: seq<Event>)
    | Began(session: Session)
    | Resync(certain: bool, crossed: seq<string>)
    | Checked(valid: bool, ids: seq<string>)
    | Fenced(ids: seq<string>)
    | Done
    | Raised

  const EMPTY_BUFFER := Buffer([], [], {}, map[], Healthy, 0, 0, None, [], false)

  function Ids(events: seq<Event>): (r: seq<string>)
    ensures |r| == |events| && forall i :: 0 <= i < |r| ==> r[i] == events[i].id
  {
    seq(|events|, i requires 0 <= i < |events| => events[i].id)
  }

  // ---------------------------------------------------------------- single calls

  /** The sequence number and fence bookkeeping that precede every acceptance decision. */
  function Noted(b: Buffer, ids: seq<string>): Buffer {
    if b.active.None? then b.(ingestSequence := b.ingestSequence + 1)
    else b.(ingestSequence := b.ingestSequence + 1, crossedIds := b.crossedIds + ids, interference := true)
  }

  function IngestStep(l: Limits, b: Buffer, e: Event): (Buffer, IngestStatus) {
    var n := Noted(b, [e.id]);
    if e.id in b.dedupeIds then (n, Duplicate)
    else if e.kind in b.lastOrdering && Before(e.OrderingKey(), b.lastOrdering[e.kind]) then
      (n.(health := Degraded), OutOfOrder)
    else if |b.queue| >= l.queue then (n.(health := Degraded), Overflow)
    else
      var order := LastN(b.dedupeOrder + [e.id], l.dedupe);
      (n.(queue := b.queue + [e],
          lastOrdering := b.lastOrdering[e.kind := e.OrderingKey()],
          dedupeOrder := order,
          dedupeIds := (set x | x in order),
          health := if e.kind.ListenKeyExpired? then Expired else b.health),
       Accepted)
  }

  function InvalidStep(b: Buffer): Buffer {
    Noted(b, []).(health := Degraded)
  }

  function DrainCount(b: Buffer, limit: Option<int>): nat
    requires limit.Some? ==> limit.value >= 1
  {
    if limit.None? || limit.value >= |b.queue| then |b.queue| else limit.value
  }

  function OpenSession(b: Buffer): Session {
    Session(b.generation + 1, b.ingestSequence, Ids(b.queue))
  }

  function BeginStep(b: Buffer): Buffer {
    b.(generation := b.generation + 1, active := Some(OpenSession(b)), crossedIds := [],
       interference := false, health := Degraded)
  }

  function Crossed(b: Buffer, s: Session): seq<string> {
    FirstOccurrences(s.pendingIds + b.crossedIds)
  }

  /** The REST result is certain. */
  predicate Certain(b: Buffer, s: Session) {
    !b.interference && b.ingestSequence == s.startSequence && b.queue == [] && Crossed(b, s) == []
  }

  /** The final fence holds; unlike `Certain` this does not look at the session's pending ids. */
  predicate Quiet(b: Buffer, s: Session) {
    !b.interference && b.ingestSequence == s.startSequence && b.queue == [] && b.crossedIds == []
  }

  function Recovered(b: Buffer): Buffer {
    b.(active := None, crossedIds := [], interference := false, health := Healthy, lastOrdering := map[])
  }

  function FenceIds(b: Buffer, s: Session): seq<string> {
    FirstOccurrences(s.pendingIds + b.crossedIds + Ids(b.queue))
  }

  function FenceStep(b: Buffer): Buffer {
    b.(queue := [], active := None, crossedIds := [], interference := false, health := Degraded)
  }

  function Step(l: Limits, b: Buffer, op: Op): (Buffer, Reply) {
    match op
    case Ingest(e) => var (n, status) := IngestStep(l, b, e); (n, Ingested(status))
    case IngestRaw(Some(e)) => var (n, status) := IngestStep(l, b, e); (n, Ingested(status))
    case IngestRaw(None) => (InvalidStep(b), Ingested(Invalid))
    case Drain(limit) =>
      if limit.Some? && limit.value < 1 then (b, Raised)
      else
        var n := DrainCount(b, limit);
        (b.(queue := b.queue[n..]), Removed(b.queue[..n]))
    case MarkDisconnected => (b.(health := Disconnected), Done)
    case Begin => if b.active.Some? then (b, Raised) else (BeginStep(b), Began(OpenSession(b)))
    case Complete(s, id, cursor, deferRecovery) =>
      if b.active != Some(s) || Blank(id) || Blank(cursor) then (b, Raised)
      else if !Certain(b, s) then (b, Resync(false, Crossed(b, s)))
      else (if deferRecovery then b else Recovered(b), Resync(true, []))
    case Validate(s) =>
      if b.active != Some(s) then (b, Raised)
      else if Quiet(b, s) then (b, Checked(true, []))
      else (FenceStep(b), Checked(false, FenceIds(b, s)))
    case Finalize(s) =>
      if b.active != Some(s) then (b, Raised)
      else if Quiet(b, s) then (Recovered(b), Checked(true, []))
      else (FenceStep(b), Checked(false, FenceIds(b, s)))
    case Fence(s) =>
      if b.active != Some(s) then (b, Raised) else (FenceStep(b), Fenced(FenceIds(b, s)))
    case MarkComplete => (b, Raised)
  }

  // ---------------------------------------------------------------- runs

  /** The buffer after a whole run of calls. */
  function Run(l: Limits, ops: seq<Op>): Buffer {
    if ops == [] then EMPTY_BUFFER
    else Step(l, Run(l, ops[..|ops| - 1]), ops[|ops| - 1]).0
  }

  /** What call k of the run answered. */
  function ReplyAt(l: Limits, ops: seq<Op>, k: nat): Reply
    requires k < |ops|
  {
    Step(l, Run(l, ops[..k]), ops[k]).1
  }

  predicate IsIngest(op: Op) { op.Ingest? || op.IngestRaw? }

  function EventsOf(op: Op): seq<Event> {
    match op
    case Ingest(e) => [e]
    case IngestRaw(Some(e)) => [e]
    case _ => []
  }

  function AcceptedBy(l: Limits, b: Buffer, op: Op): seq<Event> {
    if Step(l, b, op).1 == Ingested(Accepted) then EventsOf(op) else []
  }

  /** Every event the run accepted, oldest first. */
  function AcceptedLog(l: Limits, ops: seq<Op>): seq<Event> {
    if ops == [] then []
    else
      var k := |ops| - 1;
      AcceptedLog(l, ops[..k]) + AcceptedBy(l, Run(l, ops[..k]), ops[k])
  }

  /** Events that left the queue at one call: handed to the caller, or discarded by a fence. */
  function Departed(l: Limits, b: Buffer, op: Op): seq<Event> {
    match Step(l, b, op).1
    case Removed(events) => events
    case Checked(valid, _) => if valid then [] else b.queue
    case Fenced(_) => b.queue
    case _ => []
  }

  function DepartedLog(l: Limits, ops: seq<Op>): seq<Event> {
    if ops == [] then []
    else
      var k := |ops| - 1;
      DepartedLog(l, ops[..k]) + Departed(l, Run(l, ops[..k]), ops[k])
  }

  function IngestCount(ops: seq<Op>): nat {
    if ops == [] then 0
    else IngestCount(ops[..|ops| - 1]) + if IsIngest(ops[|ops| - 1]) then 1 else 0
  }

  // ---------------------------------------------------------------- what every call keeps

  /** Two acceptances of one id have at least n other acceptances between them. */
  ghost predicate Separated(log: seq<Event>, n: nat) {
    forall i, j :: 0 <= i < j < |log| && log[i].id == log[j].id ==> j - i > n
  }

  ghost predicate OrderedByKind(queue: seq<Event>) {
    forall i, j :: 0 <= i < j < |queue| && queue[i].kind == queue[j].kind ==>
      !Before(queue[j].OrderingKey(), queue[i].OrderingKey())
  }

  ghost predicate BoundedByLast(b: Buffer) {
    forall i :: 0 <= i < |b.queue| ==>
      b.queue[i].kind in b.lastOrdering &&
      !Before(b.lastOrdering[b.queue[i].kind], b.queue[i].OrderingKey())
  }

  /** The fence bookkeeping of an open session is exact. */
  ghost predicate FenceExact(b: Buffer) {
    match b.active
    case None => !b.interference && b.crossedIds == []
    case Some(s) =>
      && b.health != Healthy
      && s.startSequence <= b.ingestSequence
      && (b.interference <==> b.ingestSequence != s.startSequence)
      && (b.crossedIds != [] ==> b.interference)
  }

  ghost predicate Window(l: Limits, b: Buffer, log: seq<Event>) {
    && b.dedupeOrder == LastN(Ids(log), l.dedupe)
    && Distinct(b.dedupeOrder)
    && b.dedupeIds == (set x | x in b.dedupeOrder)
    && Separated(log, l.dedupe)
  }

  ghost predicate QueueInv(l: Limits, b: Buffer) {
    |b.queue| <= l.queue && OrderedByKind(b.queue) && BoundedByLast(b) && FenceExact(b)
  }

  lemma AcceptKeepsWindow(l: Limits, b: Buffer, log: seq<Event>, e: Event)
    requires l.Valid() && Window(l, b, log) && e.id !in b.dedupeIds
    ensures var order := LastN(b.dedupeOrder + [e.id], l.dedupe);
            Window(l, b.(dedupeOrder := order, dedupeIds := set x | x in order), log + [e])
  {
    var order := LastN(b.dedupeOrder + [e.id], l.dedupe);
    assert Ids(log + [e]) == Ids(log) + [e.id];
    assert order == LastN(Ids(log + [e]), l.dedupe);
    AcceptKeepsSeparated(l, b, log, e);
    hide Separated;
    assert Distinct(b.dedupeOrder + [e.id]);
  }

  /** An id not in the window was last accepted before everything the window still holds. */
  lemma AcceptKeepsSeparated(l: Limits, b: Buffer, log: seq<Event>, e: Event)
    requires l.Valid() && Window(l, b, log) && e.id !in b.dedupeIds
    ensures Separated(log + [e], l.dedupe)
  {
    var from := |log| - |b.dedupeOrder|;
    forall i | from <= i < |log|
      ensures log[i].id != e.id
    {
      assert b.dedupeOrder[i - from] == log[i].id;
    }
    assert from > 0 ==> |b.dedupeOrder| == l.dedupe;
    hide LastN;
  }

  lemma IngestKeepsQueue(l: Limits, b: Buffer, e: Event)
    requires l.Valid() && QueueInv(l, b)
    ensures QueueInv(l, IngestStep(l, b, e).0)
  {
    var n := IngestStep(l, b, e).0;
    if IngestStep(l, b, e).1 == Accepted {
      forall i | 0 <= i < |b.queue| && b.queue[i].kind == e.kind
        ensures !Before(e.OrderingKey(), b.queue[i].OrderingKey())
      {
      }
    }
  }

  lemma StepKeepsQueue(l: Limits, b: Buffer, op: Op)
    requires l.Valid() && QueueInv(l, b)
    ensures QueueInv(l, Step(l, b, op).0)
  {
    match op
    case Ingest(e) => IngestKeepsQueue(l, b, e);
    case IngestRaw(Some(e)) => IngestKeepsQueue(l, b, e);
    case _ =>
  }

  /** Whole-run invariant: the order guard, the bounds and the fence bookkeeping after every run. */
  lemma {:induction false} RunKeepsQueue(l: Limits, ops: seq<Op>)
    requires l.Valid()
    ensures QueueInv(l, Run(l, ops))
  {
    if ops != [] {
      RunKeepsQueue(l, ops[..|ops| - 1]);
      StepKeepsQueue(l, Run(l, ops[..|ops| - 1]), ops[|ops| - 1]);
    }
  }

  lemma StepKeepsWindow(l: Limits, b: Buffer, log: seq<Event>, op: Op)
    requires l.Valid() && Window(l, b, log)
    ensures Window(l, Step(l, b, op).0, log + AcceptedBy(l, b, op))
  {
    StepDedupe(l, b, op);
    hide Step;
    if Step(l, b, op).1 == Ingested(Accepted) {
      AcceptKeepsWindow(l, b, log, EventsOf(op)[0]);
    } else {
      assert log + [] == log;
    }
  }

  /** Only an acceptance touches the dedupe window, and then by a new id. */
  lemma StepDedupe(l: Limits, b: Buffer, op: Op)
    ensures var (next, reply) := Step(l, b, op);
            if reply == Ingested(Accepted) then
              && EventsOf(op) != [] && EventsOf(op) == [EventsOf(op)[0]] && EventsOf(op)[0].id !in b.dedupeIds
              && next.dedupeOrder == LastN(b.dedupeOrder + [EventsOf(op)[0].id], l.dedupe)
              && next.dedupeIds == set x | x in next.dedupeOrder
            else next.dedupeOrder == b.dedupeOrder && next.dedupeIds == b.dedupeIds
  {
    hide LastN;
  }

  /** Over every run the dedupe deque holds exactly the last accepted ids, and ids recur only far apart. */
  lemma {:induction false} RunKeepsWindow(l: Limits, ops: seq<Op>)
    requires l.Valid()
    ensures Window(l, Run(l, ops), AcceptedLog(l, ops))
  {
    if ops != [] {
      var k := |ops| - 1;
      RunKeepsWindow(l, ops[..k]);
      StepKeepsWindow(l, Run(l, ops[..k]), AcceptedLog(l, ops[..k]), ops[k]);
    }
  }

  lemma StepConserves(l: Limits, b: Buffer, op: Op)
    ensures b.queue + AcceptedBy(l, b, op) == Departed(l, b, op) + Step(l, b, op).0.queue
  {
    hide Blank, FirstOccurrences, LastN, Before, Certain, Quiet, Crossed, FenceIds;
    if op.Drain? && !(op.limit.Some? && op.limit.value < 1) {
      var n := DrainCount(b, op.limit);
      assert b.queue[..n] + b.queue[n..] == b.queue;
    }
  }

  /** Conservation: accepted events are the departed ones followed by the queue, in order, none lost or repeated. */
  lemma {:induction false} RunConserves(l: Limits, ops: seq<Op>)
    ensures AcceptedLog(l, ops) == DepartedLog(l, ops) + Run(l, ops).queue
  {
    if ops != [] {
      var k := |ops| - 1;
      var b := Run(l, ops[..k]);
      RunConserves(l, ops[..k]);
      StepConserves(l, b, ops[k]);
      Regroup(DepartedLog(l, ops[..k]), b.queue, AcceptedBy(l, b, ops[k]),
              Departed(l, b, ops[k]), Run(l, ops).queue);
    }
  }

  lemma Regroup<T>(gone: seq<T>, queue: seq<T>, added: seq<T>, leaving: seq<T>, next: seq<T>)
    requires queue + added == leaving + next
    ensures gone + queue + added == gone + leaving + next
  {
    assert gone + queue + added == gone + (queue + added);
  }

  /** Two acceptances of one id are separated by at least `l.dedupe` other acceptances. */
  lemma RepeatsAreFarApart(l: Limits, ops: seq<Op>, i: nat, j: nat)
    requires l.Valid()
    requires i < j < |AcceptedLog(l, ops)|
    requires AcceptedLog(l, ops)[i].id == AcceptedLog(l, ops)[j].id
    ensures j - i - 1 >= l.dedupe
  {
    RunKeepsWindow(l, ops);
  }

  // ---------------------------------------------------------------- the fence over runs

  lemma {:induction false} SequenceCountsIngests(l: Limits, ops: seq<Op>)
    ensures Run(l, ops).ingestSequence == IngestCount(ops)
  {
    if ops != [] {
      SequenceCountsIngests(l, ops[..|ops| - 1]);
      StepCounts(l, Run(l, ops[..|ops| - 1]), ops[|ops| - 1]);
      hide Step;
    }
  }

  lemma StepCounts(l: Limits, b: Buffer, op: Op)
    ensures Step(l, b, op).0.ingestSequence == b.ingestSequence + if IsIngest(op) then 1 else 0
  {
    hide Blank, FirstOccurrences, LastN, Before, Certain, Quiet, Crossed, FenceIds, DrainCount;
  }

  lemma {:induction false} EqualCountsMeanSilence(ops: seq<Op>, i: nat)
    requires i <= |ops|
    ensures IngestCount(ops[..i]) <= IngestCount(ops)
    ensures IngestCount(ops[..i]) == IngestCount(ops) ==> forall j :: i <= j < |ops| ==> !IsIngest(ops[j])
    decreases |ops|
  {
    if i < |ops| {
      var front := ops[..|ops| - 1];
      assert front[..i] == ops[..i];
      EqualCountsMeanSilence(front, i);
      assert forall j :: i <= j < |front| ==> ops[j] == front[j];
    } else {
      assert ops[..i] == ops;
    }
  }

  /** Call i opened session s, with this queue, and no call after it was an ingest of any kind. */
  ghost predicate SilentSince(l: Limits, ops: seq<Op>, i: nat, s: Session) {
    && i < |ops|
    && ReplyAt(l, ops, i) == Began(s)
    && s.pendingIds == Ids(Run(l, ops[..i]).queue)
    && forall j :: i <= j < |ops| ==> !IsIngest(ops[j])
  }

  /** An open session was returned by exactly such a begin call of the run. */
  ghost predicate OpenedAt(l: Limits, ops: seq<Op>, i: nat, s: Session) {
    && i < |ops|
    && ReplyAt(l, ops, i) == Began(s)
    && s == OpenSession(Run(l, ops[..i]))
  }

  lemma StepKeepsOrOpens(l: Limits, b: Buffer, op: Op, s: Session)
    requires Step(l, b, op).0.active == Some(s)
    ensures b.active == Some(s) || (Step(l, b, op).1 == Began(s) && s == OpenSession(b))
  {
  }

  lemma {:induction false} ActiveWasOpened(l: Limits, ops: seq<Op>, s: Session)
    requires Run(l, ops).active == Some(s)
    ensures exists i: nat :: OpenedAt(l, ops, i, s)
  {
    var k := |ops| - 1;
    StepKeepsOrOpens(l, Run(l, ops[..k]), ops[k], s);
    if Run(l, ops[..k]).active != Some(s) {
      assert OpenedAt(l, ops, k, s);
    } else {
      ActiveWasOpened(l, ops[..k], s);
      var i: nat :| OpenedAt(l, ops[..k], i, s);
      assert ops[..k][..i] == ops[..i] && ops[..k][i] == ops[i];
      assert OpenedAt(l, ops, i, s);
    }
  }

  /** A session that still passes the final fence has seen no ingest since it was opened. */
  lemma QuietMeansSilence(l: Limits, ops: seq<Op>, s: Session)
    requires Run(l, ops).active == Some(s) && Run(l, ops).ingestSequence == s.startSequence
    ensures exists i: nat :: SilentSince(l, ops, i, s)
  {
    ActiveWasOpened(l, ops, s);
    var i: nat :| OpenedAt(l, ops, i, s);
    SequenceCountsIngests(l, ops[..i]);
    SequenceCountsIngests(l, ops);
    EqualCountsMeanSilence(ops, i);
    assert SilentSince(l, ops, i, s);
  }

  /**
   When complete answers CERTAIN: the queue was empty when that session was opened, is empty now, and
   no ingest of any status happened in between.
   */
  lemma CertainMeansUndisturbed(l: Limits, ops: seq<Op>, k: nat)
    requires k < |ops| && ReplyAt(l, ops, k) == Resync(true, [])
    ensures Run(l, ops[..k]).queue == []
    ensures exists i: nat :: SilentSince(l, ops[..k], i, ops[k].session) && Run(l, ops[..k][..i]).queue == []
  {
    var s := ops[k].session;
    QuietMeansSilence(l, ops[..k], s);
    var i: nat :| SilentSince(l, ops[..k], i, s);
    CertainIffQuietAndNothingPending(Run(l, ops[..k]), s);
  }

  /**
   When finalize (or the check alone) passes: the queue is empty and no ingest happened since that
   session was opened, whatever was pending at the time it was opened.
   */
  lemma FinalizedMeansSilent(l: Limits, ops: seq<Op>, k: nat)
    requires k < |ops| && ReplyAt(l, ops, k) == Checked(true, [])
    ensures Run(l, ops[..k]).queue == []
    ensures exists i: nat :: SilentSince(l, ops[..k], i, ops[k].session)
  {
    QuietMeansSilence(l, ops[..k], ops[k].session);
  }

  /** A certain deferred complete followed by a passing finalize: undisturbed from opening to recovery. */
  lemma DeferredRecoveryUndisturbed(l: Limits, ops: seq<Op>, k: nat, m: nat)
    requires k < m < |ops| && ReplyAt(l, ops, k) == Resync(true, [])
    requires ReplyAt(l, ops, m) == Checked(true, []) && ops[m].session == ops[k].session
    ensures Run(l, ops[..m]).queue == []
    ensures exists i: nat :: SilentSince(l, ops[..m], i, ops[m].session) && Run(l, ops[..m][..i]).queue == []
  {
    var s := ops[m].session;
    CertainReply(l, Run(l, ops[..k]), ops[k]);
    FinalizedMeansSilent(l, ops, m);
    hide Step, Run;
    CertainIffQuietAndNothingPending(Run(l, ops[..k]), s);
    var i: nat :| SilentSince(l, ops[..m], i, s);
  }

  lemma CertainReply(l: Limits, b: Buffer, op: Op)
    requires Step(l, b, op).1 == Resync(true, [])
    ensures op.Complete? && Certain(b, op.session)
  {
    hide FirstOccurrences;
  }

  /** Complete is certain exactly when the final check would pass and nothing was pending at the start. */
  lemma CertainIffQuietAndNothingPending(b: Buffer, s: Session)
    ensures Certain(b, s) <==> Quiet(b, s) && s.pendingIds == []
  {
    var all := s.pendingIds + b.crossedIds;
    assert all != [] ==> all[0] in all && all[0] in Crossed(b, s);
  }

  /** The call restored health: an undeferred certain complete, or a passing finalize. */
  predicate RestoresHealth(op: Op, reply: Reply) {
    || (op.Complete? && !op.deferRecovery && reply == Resync(true, []))
    || (op.Finalize? && reply == Checked(true, []))
  }

  lemma StepToHealthy(l: Limits, b: Buffer, op: Op)
    requires b.health != Healthy && Step(l, b, op).0.health == Healthy
    ensures RestoresHealth(op, Step(l, b, op).1)
    ensures b.active == Some(op.session) && b.queue == [] && b.ingestSequence == op.session.startSequence
  {
  }

  /** Call k restored health over an empty queue, and its session, opened at call b, saw no ingest. */
  ghost predicate FencedRecovery(l: Limits, ops: seq<Op>, k: nat, b: nat) {
    && k < |ops|
    && RestoresHealth(ops[k], ReplyAt(l, ops, k))
    && Run(l, ops[..k]).queue == []
    && SilentSince(l, ops[..k], b, ops[k].session)
  }

  /**
   Health returns to HEALTHY by no other step: between an unhealthy point i and a later healthy point
   lies a restoring call, made over an empty queue after an ingest-free session.
   */
  lemma {:induction false} RecoveryNeedsTheFence(l: Limits, ops: seq<Op>, i: nat)
    requires i < |ops| && Run(l, ops[..i]).health != Healthy && Run(l, ops).health == Healthy
    ensures exists k: nat, b: nat :: i <= k && FencedRecovery(l, ops, k, b)
  {
    var k := |ops| - 1;
    hide Step, Run, FencedRecovery;
    RunUnfolds(l, ops);
    if Run(l, ops[..k]).health != Healthy {
      var b := HealedHere(l, ops);
    } else {
      assert ops[..k][..i] == ops[..i];
      RecoveryNeedsTheFence(l, ops[..k], i);
      var m: nat, b: nat :| i <= m && FencedRecovery(l, ops[..k], m, b);
      FencedEarlier(l, ops, m, b);
    }
  }

  lemma RunUnfolds(l: Limits, ops: seq<Op>)
    requires ops != []
    ensures Run(l, ops) == Step(l, Run(l, ops[..|ops| - 1]), ops[|ops| - 1]).0
  {
    hide Step;
  }

  lemma HealedHere(l: Limits, ops: seq<Op>) returns (b: nat)
    requires ops != []
    requires var k := |ops| - 1;
             Run(l, ops[..k]).health != Healthy && Step(l, Run(l, ops[..k]), ops[k]).0.health == Healthy
    ensures FencedRecovery(l, ops, |ops| - 1, b)
  {
    var k := |ops| - 1;
    StepToHealthy(l, Run(l, ops[..k]), ops[k]);
    hide Step, Run;
    QuietMeansSilence(l, ops[..k], ops[k].session);
    b :| SilentSince(l, ops[..k], b, ops[k].session);
  }

  lemma FencedEarlier(l: Limits, ops: seq<Op>, m: nat, b: nat)
    requires ops != [] && FencedRecovery(l, ops[..|ops| - 1], m, b)
    ensures FencedRecovery(l, ops, m, b)
  {
    hide Step, Run, SilentSince;
    var k := |ops| - 1;
    assert ops[..k][..m] == ops[..m] && ops[..k][m] == ops[m];
  }

  // ---------------------------------------------------------------- what decides an ingest

  /** The events accepted since health was last restored, oldest first; a restoring call forgets the order guard. */
  function AcceptedSince(l: Limits, ops: seq<Op>): seq<Event> {
    if ops == [] then []
    else
      var k := |ops| - 1;
      if RestoresHealth(ops[k], ReplyAt(l, ops, k)) then []
      else AcceptedSince(l, ops[..k]) + AcceptedBy(l, Run(l, ops[..k]), ops[k])
  }

  /** x happened later than e on the exchange, by transaction time and then by event time. */
  predicate Later(x: Event, e: Event) {
    var tx := if x.transactionTime.None? then x.eventTime else x.transactionTime.value;
    var te := if e.transactionTime.None? then e.eventTime else e.transactionTime.value;
    te < tx || (te == tx && e.eventTime < x.eventTime)
  }

  /** The guard of each event type is the latest event of that type accepted since the last recovery. */
  ghost predicate GuardExact(b: Buffer, since: seq<Event>) {
    && (forall i :: 0 <= i < |since| ==>
          since[i].kind in b.lastOrdering && !Before(b.lastOrdering[since[i].kind], since[i].OrderingKey()))
    && (forall t :: t in b.lastOrdering ==> exists i :: 0 <= i < |since| && since[i].kind == t && since[i].OrderingKey() == b.lastOrdering[t])
  }

  lemma StepKeepsGuard(l: Limits, b: Buffer, op: Op, since: seq<Event>)
    requires GuardExact(b, since)
    ensures var (next, reply) := Step(l, b, op);
            GuardExact(next, if RestoresHealth(op, reply) then [] else since + AcceptedBy(l, b, op))
  {
    StepOrdering(l, b, op);
    if Step(l, b, op).1 == Ingested(Accepted) {
      AcceptKeepsGuard(b, Step(l, b, op).0, EventsOf(op)[0], since);
    } else {
      assert since + [] == since;
    }
    hide Step;
  }

  /** Only an acceptance or a recovery touches the order guards. */
  lemma StepOrdering(l: Limits, b: Buffer, op: Op)
    ensures var (next, reply) := Step(l, b, op);
            if reply == Ingested(Accepted) then
              && EventsOf(op) != [] && EventsOf(op) == [EventsOf(op)[0]]
              && (EventsOf(op)[0].kind in b.lastOrdering ==> !Before(EventsOf(op)[0].OrderingKey(), b.lastOrdering[EventsOf(op)[0].kind]))
              && next.lastOrdering == b.lastOrdering[EventsOf(op)[0].kind := EventsOf(op)[0].OrderingKey()]
            else next.lastOrdering == if RestoresHealth(op, reply) then map[] else b.lastOrdering
  {
    hide LastN, FirstOccurrences;
  }

  lemma AcceptKeepsGuard(b: Buffer, next: Buffer, e: Event, since: seq<Event>)
    requires GuardExact(b, since) && (e.kind in b.lastOrdering ==> !Before(e.OrderingKey(), b.lastOrdering[e.kind]))
    requires next.lastOrdering == b.lastOrdering[e.kind := e.OrderingKey()]
    ensures GuardExact(next, since + [e])
  {
    var all := since + [e];
    assert all[|since|] == e;
    forall t | t in next.lastOrdering
      ensures exists i :: 0 <= i < |all| && all[i].kind == t && all[i].OrderingKey() == next.lastOrdering[t]
    {
      if t != e.kind {
        var i :| 0 <= i < |since| && since[i].kind == t && since[i].OrderingKey() == b.lastOrdering[t];
        assert all[i] == since[i];
      }
    }
  }

  lemma {:induction false} RunKeepsGuard(l: Limits, ops: seq<Op>)
    ensures GuardExact(Run(l, ops), AcceptedSince(l, ops))
  {
    if ops != [] {
      var k := |ops| - 1;
      RunKeepsGuard(l, ops[..k]);
      hide Step, GuardExact;
      StepKeepsGuard(l, Run(l, ops[..k]), ops[k], AcceptedSince(l, ops[..k]));
    }
  }

  /** The id is that of one of the last n accepted events. */
  ghost predicate AmongLast(log: seq<Event>, n: nat, id: string) {
    exists i :: 0 <= i < |log| && |log| - n <= i && log[i].id == id
  }

  lemma WindowIsAmongLast(l: Limits, b: Buffer, log: seq<Event>, id: string)
    requires Window(l, b, log)
    ensures id in b.dedupeIds <==> AmongLast(log, l.dedupe, id)
  {
    hide Separated, Distinct, LastN, Ids;
    InLastN(Ids(log), l.dedupe, id);
    assert |Ids(log)| == |log| && forall i :: 0 <= i < |log| ==> Ids(log)[i] == log[i].id;
  }

  lemma InLastN(ids: seq<string>, n: nat, id: string)
    ensures id in LastN(ids, n) <==> exists i :: 0 <= i < |ids| && |ids| - n <= i && ids[i] == id
  {
    var from := if |ids| <= n then 0 else |ids| - n;
    assert LastN(ids, n) == ids[from..];
    hide LastN;
    if i :| 0 <= i < |ids| && |ids| - n <= i && ids[i] == id {
      assert ids[from..][i - from] == id;
    }
  }

  /**
   The answer to an ingest after any run, from the history of the run alone: a duplicate repeats one of the
   last `max_dedupe_size` accepted ids; otherwise it is out of order when an event of its type accepted
   since the last recovery is later; otherwise it overflows when as many events as the bound were accepted
   and have not left; and it is accepted if and only if none of the three holds.
   */
  lemma IngestDecision(l: Limits, ops: seq<Op>, e: Event)
    requires l.Valid()
    ensures var known := AmongLast(AcceptedLog(l, ops), l.dedupe, e.id);
            var overtaken := exists x :: x in AcceptedSince(l, ops) && x.kind == e.kind && Later(x, e);
            var full := |AcceptedLog(l, ops)| - |DepartedLog(l, ops)| >= l.queue;
            var reply := Step(l, Run(l, ops), Ingest(e)).1;
            && (reply == Ingested(Accepted) <==> !known && !overtaken && !full)
            && (reply == Ingested(Duplicate) <==> known)
            && (reply == Ingested(OutOfOrder) <==> !known && overtaken)
            && (reply == Ingested(Overflow) <==> !known && !overtaken && full)
  {
    RunKeepsWindow(l, ops);
    RunConserves(l, ops);
    RunKeepsGuard(l, ops);
    var b, since := Run(l, ops), AcceptedSince(l, ops);
    hide Run, AcceptedLog, DepartedLog, AcceptedSince;
    WindowIsAmongLast(l, b, AcceptedLog(l, ops), e.id);
    hide Window, AmongLast, LastN;
    OvertakenIff(b, since, e);
    hide GuardExact, Before, Later;
  }

  lemma OvertakenIff(b: Buffer, since: seq<Event>, e: Event)
    requires GuardExact(b, since)
    ensures (exists x :: x in since && x.kind == e.kind && Later(x, e)) <==>
            e.kind in b.lastOrdering && Before(e.OrderingKey(), b.lastOrdering[e.kind])
  {
    if x :| x in since && x.kind == e.kind && Later(x, e) {
      var i :| 0 <= i < |since| && since[i] == x;
      assert Before(e.OrderingKey(), b.lastOrdering[e.kind]);
    }
    if e.kind in b.lastOrdering && Before(e.OrderingKey(), b.lastOrdering[e.kind]) {
      var i :| 0 <= i < |since| && since[i].kind == e.kind && since[i].OrderingKey() == b.lastOrdering[e.kind];
      assert since[i] in since && Later(since[i], e);
    }
  }

  /** A drain hands over as much as it may: either the limit, or everything there was. */
  lemma DrainTakesAllItMay(l: Limits, ops: seq<Op>, limit: Option<int>)
    ensures var (next, reply) := Step(l, Run(l, ops), Drain(limit));
            && (reply == Raised <==> limit.Some? && limit.value < 1)
            && (reply == Raised ==> next == Run(l, ops))
            && (reply != Raised ==>
                  && reply.Removed?
                  && (limit.Some? ==> |reply.events| <= limit.value)
                  && (next.queue == [] || (limit.Some? && |reply.events| == limit.value)))
  {
  }

  // ---------------------------------------------------------------- health over runs

  /** What a call's answer says about health; None when it says nothing. */
  ghost function Verdict(op: Op, reply: Reply): Option<Health> {
    match reply
    case Ingested(OutOfOrder) => Some(Degraded)
    case Ingested(Overflow) => Some(Degraded)
    case Ingested(Invalid) => Some(Degraded)
    case Ingested(Accepted) => if EventsOf(op) != [] && EventsOf(op)[0].kind.ListenKeyExpired? then Some(Expired) else None
    case Began(_) => Some(Degraded)
    case Checked(false, _) => Some(Degraded)
    case Fenced(_) => Some(Degraded)
    case _ => if op.MarkDisconnected? then Some(Disconnected) else if RestoresHealth(op, reply) then Some(Healthy) else None
  }

  ghost function VerdictAt(l: Limits, ops: seq<Op>, k: nat): Option<Health>
    requires k < |ops|
  {
    Verdict(ops[k], ReplyAt(l, ops, k))
  }

  lemma StepFollowsVerdict(l: Limits, b: Buffer, op: Op)
    ensures var (next, reply) := Step(l, b, op);
            next.health == Verdict(op, reply).GetOr(b.health)
  {
    hide Blank, FirstOccurrences, LastN, Before, Certain, Quiet, Crossed, FenceIds, DrainCount;
  }

  /** Call k decided the health the run ends with. */
  ghost predicate Decides(l: Limits, ops: seq<Op>, k: nat) {
    && k < |ops| && VerdictAt(l, ops, k) == Some(Run(l, ops).health)
    && forall j :: k < j < |ops| ==> VerdictAt(l, ops, j).None?
  }

  /** No answer of the run says anything about health. */
  ghost predicate Undecided(l: Limits, ops: seq<Op>) {
    forall j :: 0 <= j < |ops| ==> VerdictAt(l, ops, j).None?
  }

  /** Over every run, health is what the last answer that says anything about it says, and healthy before any. */
  lemma {:induction false} HealthIsLastVerdict(l: Limits, ops: seq<Op>)
    ensures (exists k: nat :: Decides(l, ops, k)) || (Run(l, ops).health == Healthy && Undecided(l, ops))
  {
    if ops == [] {
      assert Run(l, ops) == EMPTY_BUFFER;
    } else {
      hide Decides, Undecided, Step, Verdict, Run, VerdictAt;
      var n := |ops| - 1;
      var front := ops[..n];
      HealthIsLastVerdict(l, front);
      LastVerdict(l, ops);
      if VerdictAt(l, ops, n).Some? {
        assert Decides(l, ops, n);
      } else if k: nat :| Decides(l, front, k) {
        DecidedBefore(l, ops, k);
      } else {
        StillUndecided(l, ops);
      }
    }
  }

  lemma LastVerdict(l: Limits, ops: seq<Op>)
    requires ops != []
    ensures var n := |ops| - 1;
            && (VerdictAt(l, ops, n).Some? ==> Decides(l, ops, n))
            && (VerdictAt(l, ops, n).None? ==> Run(l, ops).health == Run(l, ops[..n]).health)
  {
    hide Step, Verdict, Run, VerdictAt;
    StepFollowsVerdict(l, Run(l, ops[..|ops| - 1]), ops[|ops| - 1]);
    RunUnfolds(l, ops);
    EarlierVerdicts(l, ops);
  }

  lemma DecidedBefore(l: Limits, ops: seq<Op>, k: nat)
    requires ops != [] && Decides(l, ops[..|ops| - 1], k) && VerdictAt(l, ops, |ops| - 1).None?
    requires Run(l, ops).health == Run(l, ops[..|ops| - 1]).health
    ensures Decides(l, ops, k)
  {
    hide Step, Verdict, Run, VerdictAt;
    EarlierVerdicts(l, ops);
  }

  lemma StillUndecided(l: Limits, ops: seq<Op>)
    requires ops != [] && Undecided(l, ops[..|ops| - 1]) && VerdictAt(l, ops, |ops| - 1).None?
    ensures Undecided(l, ops)
  {
    hide Step, Verdict, Run, VerdictAt;
    EarlierVerdicts(l, ops);
  }

  lemma EarlierVerdicts(l: Limits, ops: seq<Op>)
    requires ops != []
    ensures forall j :: 0 <= j < |ops| - 1 ==> VerdictAt(l, ops, j) == VerdictAt(l, ops[..|ops| - 1], j)
    ensures VerdictAt(l, ops, |ops| - 1) == Verdict(ops[|ops| - 1], Step(l, Run(l, ops[..|ops| - 1]), ops[|ops| - 1]).1)
  {
    hide Step, Verdict, Run;
    var front := ops[..|ops| - 1];
    forall j | 0 <= j < |ops| - 1
      ensures VerdictAt(l, ops, j) == VerdictAt(l, front, j)
    {
      assert front[..j] == ops[..j] && front[j] == ops[j];
    }
  }

  /** A later call restored health over an empty queue, after an ingest-free session. */
  ghost predicate RecoveredAfter(l: Limits, ops: seq<Op>, k: nat) {
    exists m: nat, b: nat :: k < m && FencedRecovery(l, ops, m, b)
  }

  /**
   The run law of the buffer: a run ends healthy if and only if every call whose answer was bad for health
   (an event refused out of order, for overflow or as unparsable, an expired listen key, a disconnect, an
   opened session, a fence) is followed by a recovery behind the fence.
   */
  lemma HealthyIffEveryTroubleIsFenced(l: Limits, ops: seq<Op>)
    ensures Run(l, ops).health == Healthy <==>
            forall k :: 0 <= k < |ops| && VerdictAt(l, ops, k) !in {None, Some(Healthy)} ==> RecoveredAfter(l, ops, k)
  {
    hide Verdict, FencedRecovery;
    HealthIsLastVerdict(l, ops);
    if Run(l, ops).health == Healthy {
      forall k | 0 <= k < |ops| && VerdictAt(l, ops, k) !in {None, Some(Healthy)}
        ensures RecoveredAfter(l, ops, k)
      {
        TroubleNeedsRecovery(l, ops, k);
      }
    } else {
      var k: nat :| Decides(l, ops, k);
      if RecoveredAfter(l, ops, k) {
        var m: nat, b: nat :| k < m && FencedRecovery(l, ops, m, b);
        RecoveryIsVerdict(l, ops, m, b);
        assert false;
      }
    }
  }

  lemma TroubleNeedsRecovery(l: Limits, ops: seq<Op>, k: nat)
    requires k < |ops| && VerdictAt(l, ops, k) !in {None, Some(Healthy)} && Run(l, ops).health == Healthy
    ensures RecoveredAfter(l, ops, k)
  {
    StepFollowsVerdict(l, Run(l, ops[..k]), ops[k]);
    RunUnfolds(l, ops[..k + 1]);
    assert ops[..k + 1][..k] == ops[..k];
    hide Step, Run, Verdict, FencedRecovery;
    assert Run(l, ops[..k + 1]).health != Healthy;
    assert ops[..|ops|] == ops;
    RecoveryNeedsTheFence(l, ops, k + 1);
  }

  lemma RecoveryIsVerdict(l: Limits, ops: seq<Op>, m: nat, b: nat)
    requires FencedRecovery(l, ops, m, b)
    ensures m < |ops| && VerdictAt(l, ops, m) == Some(Healthy)
  {
    hide Step, Run;
  }

  /** A refused event is never forgotten: a run that ends healthy recovered behind the fence after the refusal. */
  lemma RefusalNeedsRecovery(l: Limits, ops: seq<Op>, k: nat)
    requires k < |ops| && ReplyAt(l, ops, k) in {Ingested(OutOfOrder), Ingested(Overflow), Ingested(Invalid)}
    requires Run(l, ops).health == Healthy
    ensures exists m: nat, b: nat :: k < m && FencedRecovery(l, ops, m, b)
  {
    TroubleNeedsRecovery(l, ops, k);
  }

  // ---------------------------------------------------------------- what a session sees

  /** The ids of all events given to ingest calls from call i on. */
  function IdsFrom(ops: seq<Op>, i: nat): seq<string> {
    if i >= |ops| then [] else IdsFrom(ops[..|ops| - 1], i) + Ids(EventsOf(ops[|ops| - 1]))
  }

  lemma StepCrosses(l: Limits, b: Buffer, op: Op, s: Session)
    requires Step(l, b, op).0.active == Some(s)
    ensures if b.active == Some(s) then Step(l, b, op).0.crossedIds == b.crossedIds + Ids(EventsOf(op))
            else Step(l, b, op).0.crossedIds == [] && Step(l, b, op).1 == Began(s) && s == OpenSession(b)
  {
    assert b.crossedIds + [] == b.crossedIds;
  }

  /** An open session has recorded exactly the ids ingested since the call that opened it. */
  lemma {:induction false} CrossedIdsAreIngested(l: Limits, ops: seq<Op>, s: Session)
    requires Run(l, ops).active == Some(s)
    ensures exists i: nat :: OpenedAt(l, ops, i, s) && Run(l, ops).crossedIds == IdsFrom(ops, i + 1)
  {
    var k := |ops| - 1;
    var front := ops[..k];
    StepCrosses(l, Run(l, front), ops[k], s);
    RunUnfolds(l, ops);
    hide Step, Run;
    if Run(l, front).active == Some(s) {
      CrossedIdsAreIngested(l, front, s);
      var i: nat :| OpenedAt(l, front, i, s) && Run(l, front).crossedIds == IdsFrom(front, i + 1);
      assert front[..i] == ops[..i] && front[i] == ops[i];
      assert OpenedAt(l, ops, i, s) && Run(l, ops).crossedIds == IdsFrom(ops, i + 1);
    } else {
      assert OpenedAt(l, ops, k, s) && Run(l, ops).crossedIds == IdsFrom(ops, k + 1);
    }
  }

  /** The ids that crossed the session opened at call i: queued when it opened, or ingested since. */
  ghost predicate CrossedSince(l: Limits, ops: seq<Op>, i: nat, id: string)
    requires i < |ops|
  {
    id in Ids(Run(l, ops[..i]).queue) || id in IdsFrom(ops, i + 1)
  }

  /**
   What a degraded complete and a failed final check report: each once, exactly the ids queued when the
   session opened and the ids ingested since; a fence adds those still queued.
   */
  lemma ReportedIdsCrossed(l: Limits, ops: seq<Op>, k: nat)
    requires k < |ops|
    ensures ReplyAt(l, ops, k).Resync? && !ReplyAt(l, ops, k).certain ==>
              Distinct(ReplyAt(l, ops, k).crossed) &&
              exists i: nat :: OpenedAt(l, ops[..k], i, ops[k].session) &&
                forall id :: id in ReplyAt(l, ops, k).crossed <==> CrossedSince(l, ops[..k], i, id)
    ensures ReplyAt(l, ops, k).Fenced? || (ReplyAt(l, ops, k).Checked? && !ReplyAt(l, ops, k).valid) ==>
              Distinct(ReplyAt(l, ops, k).ids) &&
              exists i: nat :: OpenedAt(l, ops[..k], i, ops[k].session) &&
                forall id :: id in ReplyAt(l, ops, k).ids <==>
                  CrossedSince(l, ops[..k], i, id) || id in Ids(Run(l, ops[..k]).queue)
  {
    var front, b, reply := ops[..k], Run(l, ops[..k]), ReplyAt(l, ops, k);
    hide Run;
    if (reply.Resync? && !reply.certain) || reply.Fenced? || (reply.Checked? && !reply.valid) {
      var s := ops[k].session;
      assert b.active == Some(s);
      assert reply.Resync? ==> reply.crossed == Crossed(b, s);
      assert reply.Fenced? || reply.Checked? ==> reply.ids == FenceIds(b, s);
      hide Step, IdsFrom;
      CrossedIdsAreIngested(l, front, s);
      var i: nat :| OpenedAt(l, front, i, s) && b.crossedIds == IdsFrom(front, i + 1);
      assert s.pendingIds == Ids(Run(l, front[..i]).queue);
    }
  }

  lemma {:induction false} GenerationsGrow(l: Limits, ops: seq<Op>, i: nat)
    requires i <= |ops|
    ensures Run(l, ops[..i]).generation <= Run(l, ops).generation
    decreases |ops|
  {
    if i == |ops| {
      assert ops[..i] == ops;
    } else {
      var front := ops[..|ops| - 1];
      assert front[..i] == ops[..i];
      GenerationsGrow(l, front, i);
      StepGeneration(l, Run(l, front), ops[|ops| - 1]);
      hide Step;
    }
  }

  lemma StepGeneration(l: Limits, b: Buffer, op: Op)
    ensures b.generation <= Step(l, b, op).0.generation
  {
  }

  lemma {:induction false} OpenIsLatest(l: Limits, ops: seq<Op>)
    ensures Run(l, ops).active.Some? ==> Run(l, ops).active.value.generation == Run(l, ops).generation
  {
    if ops != [] {
      OpenIsLatest(l, ops[..|ops| - 1]);
      StepKeepsLatest(l, Run(l, ops[..|ops| - 1]), ops[|ops| - 1]);
      hide Step;
    }
  }

  lemma StepKeepsLatest(l: Limits, b: Buffer, op: Op)
    requires b.active.Some? ==> b.active.value.generation == b.generation
    ensures var n := Step(l, b, op).0; n.active.Some? ==> n.active.value.generation == n.generation
  {
    hide Blank, FirstOccurrences, LastN, Certain, Quiet;
  }

  /** Once another session was opened, an earlier one is refused by every call, which changes nothing. */
  lemma StaleSessionIsRefused(l: Limits, ops: seq<Op>, i: nat, j: nat, s: Session, op: Op)
    requires i < j < |ops| && ReplyAt(l, ops, i) == Began(s) && ReplyAt(l, ops, j).Began?
    requires (op.Complete? || op.Validate? || op.Finalize? || op.Fence?) && op.session == s
    ensures Step(l, Run(l, ops), op) == (Run(l, ops), Raised)
  {
    hide Run;
    LaterGeneration(l, ops, i, j);
    OpenIsLatest(l, ops);
    NotOpenIsRefused(l, Run(l, ops), op);
    hide Step;
  }

  lemma LaterGeneration(l: Limits, ops: seq<Op>, i: nat, j: nat)
    requires i < j < |ops| && ReplyAt(l, ops, i).Began? && ReplyAt(l, ops, j).Began?
    ensures ReplyAt(l, ops, i).session.generation < Run(l, ops).generation
  {
    hide Run, Step;
    BeganCounts(l, ops, i);
    BeganCounts(l, ops, j);
    assert ops[..j][..i + 1] == ops[..i + 1];
    GenerationsGrow(l, ops[..j], i + 1);
    GenerationsGrow(l, ops, j + 1);
  }

  lemma NotOpenIsRefused(l: Limits, b: Buffer, op: Op)
    requires (op.Complete? || op.Validate? || op.Finalize? || op.Fence?) && b.active != Some(op.session)
    ensures Step(l, b, op) == (b, Raised)
  {
  }

  lemma BeganCounts(l: Limits, ops: seq<Op>, i: nat)
    requires i < |ops| && ReplyAt(l, ops, i).Began?
    ensures ReplyAt(l, ops, i).session.generation == Run(l, ops[..i]).generation + 1 == Run(l, ops[..i + 1]).generation
  {
    assert ops[..i + 1][..i] == ops[..i];
    RunUnfolds(l, ops[..i + 1]);
    hide Run;
  }

  // ---------------------------------------------------------------- exactly when a resync succeeds

  /**
   Complete answers CERTAIN if and only if its session is the open one, the snapshot is identified, the
   queue was empty when that session opened and nothing was ingested since.
   */
  lemma CertainIffUndisturbed(l: Limits, ops: seq<Op>, k: nat)
    requires l.Valid() && k < |ops| && ops[k].Complete?
    ensures ReplyAt(l, ops, k) == Resync(true, []) <==>
            && Run(l, ops[..k]).active == Some(ops[k].session)
            && !Blank(ops[k].snapshotId) && !Blank(ops[k].snapshotCursor)
            && exists i: nat :: SilentSince(l, ops[..k], i, ops[k].session) && Run(l, ops[..k][..i]).queue == []
  {
    var front, s := ops[..k], ops[k].session;
    if ReplyAt(l, ops, k) == Resync(true, []) {
      CertainMeansUndisturbed(l, ops, k);
    }
    if Run(l, front).active == Some(s) {
      if i: nat :| SilentSince(l, front, i, s) && Run(l, front[..i]).queue == [] {
        SilenceIsQuiet(l, front, i, s);
        SilenceOnlyDrains(l, front, i);
        hide Run;
        CertainIffQuietAndNothingPending(Run(l, front), s);
      }
    }
  }

  /** Finalize passes if and only if its session is the open one, nothing was ingested since, and the queue is empty. */
  lemma FinalizedIffSilentAndDrained(l: Limits, ops: seq<Op>, k: nat)
    requires l.Valid() && k < |ops| && (ops[k].Finalize? || ops[k].Validate?)
    ensures ReplyAt(l, ops, k) == Checked(true, []) <==>
            && Run(l, ops[..k]).active == Some(ops[k].session) && Run(l, ops[..k]).queue == []
            && exists i: nat :: SilentSince(l, ops[..k], i, ops[k].session)
  {
    var front, s := ops[..k], ops[k].session;
    if ReplyAt(l, ops, k) == Checked(true, []) {
      FinalizedMeansSilent(l, ops, k);
    }
    if Run(l, front).active == Some(s) {
      if i: nat :| SilentSince(l, front, i, s) {
        SilenceIsQuiet(l, front, i, s);
      }
    }
  }

  /** Since a session opened without any ingest, its fence is untouched. */
  lemma SilenceIsQuiet(l: Limits, ops: seq<Op>, i: nat, s: Session)
    requires l.Valid() && SilentSince(l, ops, i, s) && Run(l, ops).active == Some(s)
    ensures var b := Run(l, ops); !b.interference && b.ingestSequence == s.startSequence && b.crossedIds == []
  {
    RunKeepsQueue(l, ops);
    SequenceCountsIngests(l, ops);
    SequenceCountsIngests(l, ops[..i]);
    SilenceCountsNothing(ops, i);
    assert s.startSequence == Run(l, ops[..i]).ingestSequence;
  }

  lemma {:induction false} SilenceCountsNothing(ops: seq<Op>, i: nat)
    requires i <= |ops| && forall j :: i <= j < |ops| ==> !IsIngest(ops[j])
    ensures IngestCount(ops) == IngestCount(ops[..i])
    decreases |ops|
  {
    if i == |ops| {
      assert ops[..i] == ops;
    } else {
      assert ops[..|ops| - 1][..i] == ops[..i];
      SilenceCountsNothing(ops[..|ops| - 1], i);
    }
  }

  /** Without an ingest an empty queue stays empty. */
  lemma {:induction false} SilenceOnlyDrains(l: Limits, ops: seq<Op>, i: nat)
    requires i <= |ops| && Run(l, ops[..i]).queue == [] && forall j :: i <= j < |ops| ==> !IsIngest(ops[j])
    ensures Run(l, ops).queue == []
    decreases |ops|
  {
    if i == |ops| {
      assert ops[..i] == ops;
    } else {
      assert ops[..|ops| - 1][..i] == ops[..i];
      SilenceOnlyDrains(l, ops[..|ops| - 1], i);
    }
  }

  /** A fence reports, without repeats, the id of everything it discards. */
  lemma FenceReportsEverythingDiscarded(b: Buffer, s: Session, e: Event)
    requires e in b.queue
    ensures e.id in FenceIds(b, s) && Distinct(FenceIds(b, s))
  {
    var i :| 0 <= i < |b.queue| && b.queue[i] == e;
    assert Ids(b.queue)[i] == e.id;
  }

  /**
   Finalize alone does not protect against events pending at the start: here one event is queued when
   the session opens, is drained, and finalize restores health while complete would answer DEGRADED.
   */
  lemma FinalizeIgnoresPendingEvents(e: Event)
    ensures var l := Limits(1, 1);
            var opening := [Ingest(e), Begin, Drain(None)];
            var s := OpenSession(Run(l, [Ingest(e)]));
            && !Certain(Run(l, opening), s)
            && Run(l, opening + [Finalize(s)]).health == Healthy
  {
    var l := Limits(1, 1);
    var one, two, three := [Ingest(e)], [Ingest(e), Begin], [Ingest(e), Begin, Drain(None)];
    assert one[..0] == [] && two[..1] == one && three[..2] == two;
    var first := Run(l, one);
    assert Run(l, []) == EMPTY_BUFFER && first == IngestStep(l, EMPTY_BUFFER, e).0;
    var s := OpenSession(first);
    var second := Run(l, two);
    assert second == BeginStep(first);
    var third := Run(l, three);
    assert third.queue == [] && third.active == Some(s) && Quiet(third, s);
    CertainIffQuietAndNothingPending(third, s);
    var all := three + [Finalize(s)];
    assert all[..3] == three;
    assert Run(l, all) == Recovered(third);
  }

  // ---------------------------------------------------------------- the mutable buffer

  class BoundedUserEventBuffer {
    const limits: Limits
    var queue: seq<Event>
    var dedupeOrder: seq<string>
    var dedupeIds: set<string>
    var lastOrdering: map<EventType, Key>
    var health: Health
    var ingestSequence: nat
    var generation: nat
    var active: Option<Session>
    var crossedIds: seq<string>
    var interference: bool

    ghost function State(): Buffer
      reads this
    {
      Buffer(queue, dedupeOrder, dedupeIds, lastOrdering, health, ingestSequence, generation, active,
             crossedIds, interference)
    }

    /** The deque and the set name the same ids, once each; `RunKeepsWindow` holds it over runs. */
    ghost predicate Valid()
      reads this
    {
      && limits.Valid()
      && |dedupeOrder| <= limits.dedupe
      && Distinct(dedupeOrder)
      && dedupeIds == (set x | x in dedupeOrder)
    }

    constructor (limits: Limits)
      requires limits.Valid()
      ensures Valid() && State() == EMPTY_BUFFER && this.limits == limits
    {
      this.limits := limits;
      queue, dedupeOrder, dedupeIds, lastOrdering := [], [], {}, map[];
      health, ingestSequence, generation := Healthy, 0, 0;
      active, crossedIds, interference := None, [], false;
    }

    method Ingest(event: Event) returns (status: IngestStatus)
      requires Valid()
      modifies this
      ensures Valid()
      ensures (State(), status) == IngestStep(limits, old(State()), event)
    {
      ingestSequence := ingestSequence + 1;
      if active.Some? {
        crossedIds := crossedIds + [event.id];
        interference := true;
      }
      if event.id in dedupeIds {
        return Duplicate;
      }
      if event.kind in lastOrdering && Before(event.OrderingKey(), lastOrdering[event.kind]) {
        health := Degraded;
        return OutOfOrder;
      }
      if |queue| >= limits.queue {
        health := Degraded;
        return Overflow;
      }
      queue := queue + [event];
      lastOrdering := lastOrdering[event.kind := event.OrderingKey()];
      Remember(event.id);
      if event.kind.ListenKeyExpired? {
        health := Expired;
      }
      status := Accepted;
    }

    /** Appends an id and evicts from the old end while the deque is over its bound. */
    method Remember(id: string)
      requires Valid() && id !in dedupeIds
      modifies this`dedupeOrder, this`dedupeIds
      ensures Valid()
      ensures dedupeOrder == LastN(old(dedupeOrder) + [id], limits.dedupe)
    {
      ghost var full := dedupeOrder + [id];
      dedupeOrder := dedupeOrder + [id];
      dedupeIds := dedupeIds + {id};
      ghost var dropped := 0;
      while |dedupeOrder| > limits.dedupe
        invariant 0 <= dropped <= 1 && dedupeOrder == full[dropped..]
        invariant dropped == 1 ==> |full| == limits.dedupe + 1
        invariant Distinct(dedupeOrder) && dedupeIds == (set x | x in dedupeOrder)
      {
        var evicted := dedupeOrder[0];
        assert dedupeOrder == [evicted] + dedupeOrder[1..];
        assert evicted !in dedupeOrder[1..];
        dedupeOrder := dedupeOrder[1..];
        dedupeIds := dedupeIds - {evicted};
        dropped := dropped + 1;
      }
    }

    method IngestRaw(parsed: Option<Event>) returns (status: IngestStatus)
      requires Valid()
      modifies this
      ensures Valid()
      ensures (State(), Ingested(status)) == Step(limits, old(State()), Op.IngestRaw(parsed))
    {
      if parsed.None? {
        ingestSequence := ingestSequence + 1;
        if active.Some? {
          interference := true;
        }
        health := Degraded;
        status := Invalid;
        assert old(crossedIds) + [] == old(crossedIds);
      } else {
        status := Ingest(parsed.value);
      }
    }

    /** None stands for the ValueError on a limit below one. */
    method Drain(limit: Option<int>) returns (taken: Option<seq<Event>>)
      requires Valid()
      modifies this`queue
      ensures Valid()
      ensures (State(), if taken.None? then Raised else Removed(taken.value))
           == Step(limits, old(State()), Op.Drain(limit))
    {
      if limit.Some? && limit.value < 1 {
        return None;
      }
      var count := if limit.None? || limit.value >= |queue| then |queue| else limit.value;
      var events: seq<Event> := [];
      ghost var before := queue;
      while |events| < count
        invariant |events| <= count <= |before|
        invariant events == before[..|events|] && queue == before[|events|..]
      {
        events := events + [queue[0]];
        queue := queue[1..];
      }
      taken := Some(events);
    }

    method MarkDisconnected()
      requires Valid()
      modifies this`health
      ensures Valid() && State() == Step(limits, old(State()), Op.MarkDisconnected).0
    {
      health := Disconnected;
    }

    method BeginRestResync() returns (reply: Reply)
      requires Valid()
      modifies this
      ensures Valid() && (State(), reply) == Step(limits, old(State()), Begin)
    {
      if active.Some? {
        return Raised;
      }
      generation := generation + 1;
      var session := Session(generation, ingestSequence, Ids(queue));
      active := Some(session);
      crossedIds := [];
      interference := false;
      health := Degraded;
      reply := Began(session);
    }

    method CompleteRestResync(session: Session, snapshotId: string, snapshotCursor: string, deferRecovery: bool)
      returns (reply: Reply)
      requires Valid()
      modifies this
      ensures Valid()
      ensures (State(), reply) == Step(limits, old(State()), Complete(session, snapshotId, snapshotCursor, deferRecovery))
    {
      if active != Some(session) || Blank(snapshotId) || Blank(snapshotCursor) {
        return Raised;
      }
      var crossed := FirstOccurrences(session.pendingIds + crossedIds);
      if interference || ingestSequence != session.startSequence || queue != [] || crossed != [] {
        return Resync(false, crossed);
      }
      if !deferRecovery {
        RestoreHealth();
      }
      reply := Resync(true, []);
    }

    method RestoreHealth()
      requires Valid()
      modifies this
      ensures Valid() && State() == Recovered(old(State()))
    {
      active, crossedIds, interference, health, lastOrdering := None, [], false, Healthy, map[];
    }

    method FinalizeRestResync(session: Session) returns (reply: Reply)
      requires Valid()
      modifies this
      ensures Valid() && (State(), reply) == Step(limits, old(State()), Finalize(session))
    {
      reply := ValidateRestResync(session);
      if reply.Checked? && reply.valid {
        RestoreHealth();
      }
    }

    method ValidateRestResync(session: Session) returns (reply: Reply)
      requires Valid()
      modifies this
      ensures Valid() && (State(), reply) == Step(limits, old(State()), Validate(session))
    {
      if active != Some(session) {
        return Raised;
      }
      if interference || ingestSequence != session.startSequence || queue != [] || crossedIds != [] {
        var fenced := FenceBufferedEvents(session);
        return Checked(false, fenced.ids);
      }
      reply := Checked(true, []);
    }

    method FenceBufferedEvents(session: Session) returns (reply: Reply)
      requires Valid()
      modifies this
      ensures Valid() && (State(), reply) == Step(limits, old(State()), Fence(session))
    {
      if active != Some(session) {
        return Raised;
      }
      var ids := FirstOccurrences(session.pendingIds + crossedIds + Ids(queue));
      queue, active, crossedIds, interference, health := [], None, [], false, Degraded;
      reply := Fenced(ids);
    }
  }
}
