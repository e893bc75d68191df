/**
 Reconciliation of one private snapshot against the Guardian event ledger, and the two ways of
 projecting operator alerts: from the live result, and from the durable event alone.

 Decimals are reals, and a SHA-256 over canonical content is the content itself. Alert messages are
 a fixed text per code and identity, so the code and the identity stand for them.
 */
module GuardianLedger {
  import opened Prelude

  datatype Side = Long | Short
  datatype PositionSide = Both | Hedge(side: Side)
  datatype Identity = Identity(account: string, symbol: string, side: Side, generation: nat)
  datatype Position = Position(symbol: string, side: PositionSide, amount: real, entryPrice: real, updateTime: int)

  datatype Certainty = Certain | Uncertain
  datatype DeliveryMode = Disabled | DiscordV1
  datatype Phase = Adopted | Released | Closed
  datatype Projection = Projection(phase: Phase, quantity: real)

  datatype RejectionReason = StaleSnapshot | MissingCursor | ConflictingCursor
  datatype TerminalReason = PositionClosed | SideFlipped

  datatype EventId = Named(id: string) | RejectionOf(snapshot: EventId, time: int, reason: RejectionReason)

  /** The alert evidence stored inside a snapshot event. */
  datatype Evidence = Evidence(phaseBefore: Option<Phase>, previousQuantity: Option<real>, certainty: Certainty,
                               protectiveOrder: bool, shadowMode: bool, mode: DeliveryMode)

  datatype IntentEvidence =
    | OtherIntent
    | ViolatesContract
    | StopUpdate(contextId: string, intentId: string, policy: string, previousStop: real, proposedStop: real)

  datatype Body =
    | Snapshot(position: Position, evidence: Option<Evidence>, terminal: Option<(EventId, TerminalReason)>)
    | Rejection(reason: RejectionReason, snapshot: EventId, position: Position, protectiveOrder: bool,
                certainty: Certainty, shadowMode: bool, mode: DeliveryMode)
    | Release(cause: TerminalReason, parent: EventId)
    | PlannedIntent(intent: IntentEvidence, mode: DeliveryMode)
    | ShadowSource(stale: bool, mode: DeliveryMode)
    | Unreadable
    | Other

  datatype Event = Event(identity: Identity, time: int, body: Body)

  datatype Request = Request(identity: Identity, position: Position, snapshotId: EventId, time: int,
                             protectiveOrder: bool, shadowMode: bool, certainty: Certainty,
                             adoptable: bool, releaseId: Option<EventId>, mode: DeliveryMode)

  datatype State = Discovered | Adoptable | Observed | ManagedShadow | DegradedState | ReleasedState | ClosedState
  datatype Signal =
    | ReconciliationUncertain | SideFlipRequiresReapproval | ProtectiveOrderMissing | ManualPositionAdd
    | ManualPartialClose | PositionIsClosed | IdentityReleased | IdentityClosed | NoDurableAdoption
    | AdoptionRequiresCommit

  datatype Result = Result(state: State, quantity: Option<real>, signals: seq<Signal>, attention: bool, accepted: bool)

  datatype Code = WouldUpdateStop | StaleContext | ManualSizeIncrease | SideFlip | ProtectionMissing | UncertainState
  datatype Severity = Info | Warning | Critical
  datatype Detail =
    | InState(state: State) | ObservedQuantity(quantity: Option<real>)
    | Reason(stale: bool) | Intent(intent: IntentEvidence)

  /** An alert; its id is the digest of exactly these fields, so the value is its own id. */
  datatype Alert = Alert(identity: Identity, source: EventId, time: int, code: Code, severity: Severity, details: seq<Detail>)

  /** Alerts, or the ValueError of an unusable source. */
  datatype Alerts = Alerts(list: seq<Alert>) | Rejected

  // ---------------------------------------------------------------- live projection

  function Absolute(x: real): real { if x < 0.0 then -x else x }

  function Quantity(p: Position): real { Absolute(p.amount) }

  function ActualSide(p: Position): Option<Side> {
    if p.amount == 0.0 then None
    else match p.side
      case Both => Some(if p.amount > 0.0 then Long else Short)
      case Hedge(side) => if p.amount > 0.0 then Some(side) else None
  }

  predicate ValidSource(source: EventId, time: int) {
    time >= 0 && (source.Named? ==> !Blank(source.id) && |source.id| <= 256)
  }

  function AlertIf(signals: set<Signal>, s: Signal, alert: Alert): seq<Alert> {
    if s in signals then [alert] else []
  }

  function AlertsFromResult(id: Identity, r: Result, source: EventId, time: int): Alerts {
    if !ValidSource(source, time) then Rejected
    else
      var signals := (set s | s in r.signals) + (if r.state.DegradedState? then {ReconciliationUncertain} else {});
      Alerts(
        AlertIf(signals, ReconciliationUncertain, Alert(id, source, time, UncertainState, Critical, [InState(r.state)])) +
        AlertIf(signals, SideFlipRequiresReapproval, Alert(id, source, time, SideFlip, Critical, [InState(r.state)])) +
        AlertIf(signals, ProtectiveOrderMissing, Alert(id, source, time, ProtectionMissing, Critical, [InState(r.state)])) +
        AlertIf(signals, ManualPositionAdd,
                Alert(id, source, time, ManualSizeIncrease, Warning, [ObservedQuantity(r.quantity), InState(r.state)])))
  }

  /** The result reconcile_once returns for an accepted or replayed snapshot. */
  function LiveResult(projection: Option<Projection>, req: Request, accepted: bool): Result {
    var q := Quantity(req.position);
    match projection
    case None =>
      if req.adoptable then Result(Adoptable, Some(q), [AdoptionRequiresCommit], false, accepted)
      else Result(Discovered, Some(q), [NoDurableAdoption], false, accepted)
    case Some(Projection(Released, _)) => Result(ReleasedState, Some(q), [IdentityReleased], false, accepted)
    case Some(Projection(Closed, _)) => Result(ClosedState, Some(0.0), [IdentityClosed], false, accepted)
    case Some(Projection(Adopted, previous)) =>
      if req.certainty.Uncertain? then Result(DegradedState, Some(q), [ReconciliationUncertain], true, accepted)
      else if q == 0.0 then Result(ClosedState, Some(0.0), [PositionIsClosed], true, accepted)
      else if ActualSide(req.position) != Some(req.identity.side) then
        Result(ReleasedState, Some(q), [SideFlipRequiresReapproval], true, accepted)
      else
        var signals :=
          (if q < previous then [ManualPartialClose] else if q > previous then [ManualPositionAdd] else []) +
          (if req.protectiveOrder then [] else [ProtectiveOrderMissing]);
        Result(if req.shadowMode then ManagedShadow else Observed, Some(q), signals, signals != [], accepted)
  }

  function RejectedResult(req: Request): Result {
    Result(DegradedState, Some(Quantity(req.position)), [ReconciliationUncertain], true, false)
  }

  // ---------------------------------------------------------------- durable projection

  function AlertsFromSnapshot(id: Identity, p: Position, e: Option<Evidence>, source: EventId, time: int): Alerts {
    if e.None? || e.value.phaseBefore != Some(Adopted) then Alerts([])
    else
      var ev, q := e.value, Quantity(p);
      if ev.certainty.Uncertain? then
        AlertsFromResult(id, Result(DegradedState, Some(q), [ReconciliationUncertain], true, true), source, time)
      else if q == 0.0 then Alerts([])
      else if ActualSide(p) != Some(id.side) then
        AlertsFromResult(id, Result(ReleasedState, Some(q), [SideFlipRequiresReapproval], true, true), source, time)
      else
        var grew := match ev.previousQuantity
          case Some(previous) => q > Absolute(previous)
          case None => false;
        var signals := (if grew then [ManualPositionAdd] else []) +
                       (if ev.protectiveOrder then [] else [ProtectiveOrderMissing]);
        AlertsFromResult(id, Result(if ev.shadowMode then ManagedShadow else Observed, Some(q), signals, signals != [], true),
                         source, time)
  }

  function AlertsFromDurable(source: EventId, e: Event): Alerts {
    if !ValidSource(source, e.time) then Rejected
    else match e.body
      case Snapshot(p, evidence, _) => AlertsFromSnapshot(e.identity, p, evidence, source, e.time)
      case Rejection(_, _, _, _, _, _, _) =>
        AlertsFromResult(e.identity, Result(DegradedState, None, [ReconciliationUncertain], true, false), source, e.time)
      case PlannedIntent(OtherIntent, _) => Alerts([])
      case PlannedIntent(ViolatesContract, _) => Rejected
      case PlannedIntent(intent, _) =>
        Alerts([Alert(e.identity, source, e.time, WouldUpdateStop, Info, [Intent(intent)])])
      case ShadowSource(stale, _) =>
        Alerts([if stale then Alert(e.identity, source, e.time, StaleContext, Warning, [Reason(true)])
                else Alert(e.identity, source, e.time, UncertainState, Critical, [Reason(false)])])
      case Unreadable => Rejected
      case _ => Alerts([])
  }

  // ---------------------------------------------------------------- the ledger

  datatype LogicalSide = Flat | On(side: Side) | Improper

  function Logical(p: Position): LogicalSide {
    if p.amount == 0.0 then Flat
    else match ActualSide(p) case Some(s) => On(s) case None => Improper
  }

  /** The position fields whose change must advance the exchange's update time. */
  datatype PrivateCursor = PrivateCursor(symbol: string, side: LogicalSide, quantity: real, entryPrice: real, updateTime: int)

  function CursorFor(p: Position): PrivateCursor {
    PrivateCursor(p.symbol, Logical(p), Quantity(p), p.entryPrice, p.updateTime)
  }

  datatype Ledger = Ledger(events: map<EventId, Event>, projections: map<Identity, Projection>,
                           cursors: map<Identity, PrivateCursor>)

  function ProjectionOf(g: Ledger, id: Identity): Option<Projection> {
    if id in g.projections then Some(g.projections[id]) else None
  }

  /** Recorded quantities are absolute values, and stored evidence has both parts of the prior projection or none. */
  ghost predicate ValidLedger(g: Ledger) {
    && (forall id :: id in g.projections ==> g.projections[id].quantity >= 0.0)
    && (forall id :: id in g.events ==> ValidBody(g.events[id].body))
  }

  ghost predicate ValidBody(b: Body) {
    b.Snapshot? && b.evidence.Some? ==> WellShaped(b.evidence.value)
  }

  /** Appends once; re-appending equal content is a no-op and different content a conflict. */
  function Append(g: Ledger, id: EventId, e: Event): Option<Ledger> {
    if id !in g.events then Some(g.(events := g.events[id := e]))
    else if g.events[id] == e then Some(g)
    else None
  }

  function ApplyRelease(g: Ledger, req: Request, terminal: Option<(EventId, TerminalReason)>): Option<Ledger> {
    if terminal.None? then Some(g)
    else if req.identity !in g.projections then None
    else
      var (releaseId, reason) := terminal.value;
      match Append(g, releaseId, Event(req.identity, req.time, Release(reason, req.snapshotId)))
      case None => None
      case Some(h) =>
        var was := h.projections[req.identity];
        if was.phase != Adopted then Some(h)
        else Some(h.(projections := h.projections[req.identity := was.(phase := if reason.PositionClosed? then Closed else Released)]))
  }

  /** Why a new snapshot may not be recorded after what the identity's cursor has seen. */
  function OrderFault(g: Ledger, req: Request): Option<RejectionReason> {
    var projection := ProjectionOf(g, req.identity);
    if projection.Some? && projection.value.phase != Adopted then None
    else if req.identity !in g.cursors then if projection.Some? then Some(MissingCursor) else None
    else
      var cursor := g.cursors[req.identity];
      if req.position.updateTime < cursor.updateTime then Some(StaleSnapshot)
      else if req.position.updateTime == cursor.updateTime && CursorFor(req.position) != cursor then Some(ConflictingCursor)
      else None
  }

  function EvidenceFor(projection: Option<Projection>, req: Request): Evidence {
    Evidence(if projection.Some? then Some(projection.value.phase) else None,
             if projection.Some? then Some(projection.value.quantity) else None,
             req.certainty, req.protectiveOrder, req.shadowMode, req.mode)
  }

  /** An existing snapshot event carries the same request. */
  predicate SameRequest(e: Event, req: Request, terminal: Option<(EventId, TerminalReason)>) {
    && e.identity == req.identity && e.time == req.time
    && e.body.Snapshot? && e.body.position == req.position && e.body.terminal == terminal
    && (e.body.evidence.Some? ==>
          && e.body.evidence.value.protectiveOrder == req.protectiveOrder
          && e.body.evidence.value.certainty == req.certainty
          && e.body.evidence.value.shadowMode == req.shadowMode
          && e.body.evidence.value.mode == req.mode)
  }

  datatype Recording = Recorded(ledger: Ledger, accepted: bool) | OutOfOrder(reason: RejectionReason) | Failed

  function RecordNewSnapshot(g: Ledger, req: Request, terminal: Option<(EventId, TerminalReason)>): Recording {
    var actual := ActualSide(req.position);
    if terminal.Some? && terminal.value.1.SideFlipped? && (actual.None? || actual == Some(req.identity.side)) then Failed
    else if OrderFault(g, req).Some? then OutOfOrder(OrderFault(g, req).value)
    else
      var projection := ProjectionOf(g, req.identity);
      var body := Snapshot(req.position, Some(EvidenceFor(projection, req)), terminal);
      var h := g.(events := g.events[req.snapshotId := Event(req.identity, req.time, body)]);
      if projection.Some? && projection.value.phase != Adopted then Recorded(h, true)
      else
        var seen := h.(cursors := h.cursors[req.identity := CursorFor(req.position)]);
        if projection.None? then Recorded(seen, true)
        else
          var updated := seen.(projections :=
            seen.projections[req.identity := projection.value.(quantity := Quantity(req.position))]);
          match ApplyRelease(updated, req, terminal)
          case None => Failed
          case Some(done) => Recorded(done, true)
  }

  function RecordSnapshot(g: Ledger, req: Request, terminal: Option<(EventId, TerminalReason)>): Recording {
    if req.snapshotId !in g.events then RecordNewSnapshot(g, req, terminal)
    else if !SameRequest(g.events[req.snapshotId], req, terminal) then Failed
    else match ApplyRelease(g, req, terminal)
      case None => Failed
      case Some(h) => Recorded(h, false)
  }

  // ---------------------------------------------------------------- reconcile_once

  /** The terminal observation a certain snapshot makes of a projected position. */
  function TerminalReasonOf(req: Request): Option<TerminalReason> {
    if req.certainty.Uncertain? then None
    else if Quantity(req.position) == 0.0 then Some(PositionClosed)
    else if ActualSide(req.position) != Some(req.identity.side) then Some(SideFlipped)
    else None
  }

  /** `source` names the durable event from which the same alerts can be rebuilt. */
  datatype Outcome = Reconciled(ledger: Ledger, result: Result, source: EventId) | Error

  function RecordRejection(g: Ledger, req: Request, reason: RejectionReason): Outcome {
    var source := RejectionOf(req.snapshotId, req.time, reason);
    var body := Rejection(reason, req.snapshotId, req.position, req.protectiveOrder, req.certainty, req.shadowMode, req.mode);
    if req.identity !in g.projections then Error
    else match Append(g, source, Event(req.identity, req.time, body))
      case None => Error
      case Some(h) => Reconciled(h, RejectedResult(req), source)
  }

  function TerminalFor(g: Ledger, req: Request): Option<(EventId, TerminalReason)> {
    var reason := TerminalReasonOf(req);
    if req.identity in g.projections && reason.Some? && req.releaseId.Some?
      then Some((req.releaseId.value, reason.value)) else None
  }

  function Reconcile(g: Ledger, req: Request): Outcome {
    var projection := ProjectionOf(g, req.identity);
    if projection.Some? && projection.value.phase == Adopted && TerminalReasonOf(req).Some? && req.releaseId.None?
      then Error
    else match RecordSnapshot(g, req, TerminalFor(g, req))
      case Failed => Error
      case OutOfOrder(reason) => RecordRejection(g, req, reason)
      case Recorded(h, accepted) => Reconciled(h, LiveResult(projection, req, accepted), req.snapshotId)
  }

  // ---------------------------------------------------------------- live and durable agree

  /** The alerts depend on the prior projection only through this. */
  function ManagedQuantity(p: Option<Projection>): Option<real> {
    if p.Some? && p.value.phase == Adopted then Some(p.value.quantity) else None
  }

  function EvidenceProjection(e: Option<Evidence>): Option<Projection> {
    match e
    case Some(Evidence(Some(phase), Some(q), _, _, _, _)) => Some(Projection(phase, q))
    case _ => None
  }

  /**
   Which side a position is on, by the sign of its amount: a one-way position is long above zero and short
   below it; a hedge-mode position is on its own side above zero and on none otherwise.
   */
  ghost predicate Faces(p: Position, side: Side) {
    match p.side
    case Both => if side.Long? then p.amount > 0.0 else p.amount < 0.0
    case Hedge(own) => own == side && p.amount > 0.0
  }

  /** How large a position is, whatever its sign. */
  ghost function Size(p: Position): real { if p.amount >= 0.0 then p.amount else 0.0 - p.amount }

  lemma FacesIsActualSide(p: Position)
    ensures forall side :: ActualSide(p) == Some(side) <==> Faces(p, side)
    ensures ActualSide(p).None? <==> p.amount == 0.0 || (p.side.Hedge? && p.amount < 0.0)
    ensures Quantity(p) == Size(p) && (Size(p) == 0.0 <==> p.amount == 0.0)
  {
  }

  /** The signal codes that become alerts, as one independent table over the facts. */
  ghost predicate Raises(managed: Option<real>, req: Request, code: Code) {
    && managed.Some?
    && var open, faces := req.position.amount != 0.0, Faces(req.position, req.identity.side);
       match code
       case UncertainState => req.certainty.Uncertain?
       case SideFlip => req.certainty.Certain? && open && !faces
       case ProtectionMissing => req.certainty.Certain? && faces && !req.protectiveOrder
       case ManualSizeIncrease => req.certainty.Certain? && faces && Size(req.position) > managed.value
       case _ => false
  }

  /** The alerts that a set of facts calls for, most severe first. */
  ghost function Expected(managed: Option<real>, req: Request, source: EventId): seq<Alert> {
    var id, t, q := req.identity, req.time, Size(req.position);
    var state := if req.shadowMode then ManagedShadow else Observed;
    (if Raises(managed, req, UncertainState) then [Alert(id, source, t, UncertainState, Critical, [InState(DegradedState)])] else []) +
    (if Raises(managed, req, SideFlip) then [Alert(id, source, t, SideFlip, Critical, [InState(ReleasedState)])] else []) +
    (if Raises(managed, req, ProtectionMissing) then [Alert(id, source, t, ProtectionMissing, Critical, [InState(state)])] else []) +
    (if Raises(managed, req, ManualSizeIncrease)
     then [Alert(id, source, t, ManualSizeIncrease, Warning, [ObservedQuantity(Some(q)), InState(state)])] else [])
  }

  /** The alerts of a result whose signal set raises exactly the given codes. */
  ghost function Raised(id: Identity, r: Result, source: EventId, time: int, codes: set<Code>): seq<Alert> {
    (if UncertainState in codes then [Alert(id, source, time, UncertainState, Critical, [InState(r.state)])] else []) +
    (if SideFlip in codes then [Alert(id, source, time, SideFlip, Critical, [InState(r.state)])] else []) +
    (if ProtectionMissing in codes then [Alert(id, source, time, ProtectionMissing, Critical, [InState(r.state)])] else []) +
    (if ManualSizeIncrease in codes
     then [Alert(id, source, time, ManualSizeIncrease, Warning, [ObservedQuantity(r.quantity), InState(r.state)])] else [])
  }

  /** The codes that a result's state and signals call for. */
  ghost predicate Calls(r: Result, codes: set<Code>) {
    && (UncertainState in codes <==> r.state.DegradedState? || ReconciliationUncertain in r.signals)
    && (SideFlip in codes <==> SideFlipRequiresReapproval in r.signals)
    && (ProtectionMissing in codes <==> ProtectiveOrderMissing in r.signals)
    && (ManualSizeIncrease in codes <==> ManualPositionAdd in r.signals)
  }

  lemma ResultRaises(id: Identity, r: Result, source: EventId, time: int, codes: set<Code>)
    requires ValidSource(source, time) && Calls(r, codes)
    ensures AlertsFromResult(id, r, source, time) == Alerts(Raised(id, r, source, time, codes))
  {
  }

  ghost function Codes(managed: Option<real>, req: Request): set<Code> {
    set c | c in {UncertainState, SideFlip, ProtectionMissing, ManualSizeIncrease} && Raises(managed, req, c)
  }

  /** The state that alerts about a managed position report. */
  ghost function ReportedState(req: Request): State {
    if req.certainty.Uncertain? then DegradedState
    else if !Faces(req.position, req.identity.side) then ReleasedState
    else if req.shadowMode then ManagedShadow else Observed
  }

  lemma RaisedIsExpected(managed: Option<real>, req: Request, r: Result, source: EventId)
    requires Codes(managed, req) != {} ==> r.state == ReportedState(req) && r.quantity == Some(Quantity(req.position))
    ensures Raised(req.identity, r, source, req.time, Codes(managed, req)) == Expected(managed, req, source)
  {
  }

  lemma LiveResultCalls(p: Option<Projection>, req: Request, accepted: bool)
    ensures var r := LiveResult(p, req, accepted);
            var codes := Codes(ManagedQuantity(p), req);
            Calls(r, codes) && (codes != {} ==> r.state == ReportedState(req) && r.quantity == Some(Quantity(req.position)))
  {
    var r := LiveResult(p, req, accepted);
    if ManagedQuantity(p).Some? && req.certainty.Certain? && ActualSide(req.position) == Some(req.identity.side) {
      var size := if Quantity(req.position) < p.value.quantity then [ManualPartialClose]
                  else if Quantity(req.position) > p.value.quantity then [ManualPositionAdd] else [];
      assert r.signals == size + if req.protectiveOrder then [] else [ProtectiveOrderMissing];
    }
  }

  lemma LiveAlertsAreExpected(p: Option<Projection>, req: Request, accepted: bool, source: EventId)
    requires ValidSource(source, req.time)
    ensures AlertsFromResult(req.identity, LiveResult(p, req, accepted), source, req.time)
         == Alerts(Expected(ManagedQuantity(p), req, source))
  {
    hide LiveResult, AlertsFromResult, Codes, Calls, Raised, Expected, ReportedState;
    var r, codes := LiveResult(p, req, accepted), Codes(ManagedQuantity(p), req);
    LiveResultCalls(p, req, accepted);
    ResultRaises(req.identity, r, source, req.time, codes);
    RaisedIsExpected(ManagedQuantity(p), req, r, source);
  }

  /** The result that stored evidence of a managed position stands for. */
  ghost function StoredResult(p: Position, id: Identity, ev: Evidence): Result {
    var q := Quantity(p);
    if ev.certainty.Uncertain? then Result(DegradedState, Some(q), [ReconciliationUncertain], true, true)
    else if ActualSide(p) != Some(id.side) then Result(ReleasedState, Some(q), [SideFlipRequiresReapproval], true, true)
    else
      var grew := ev.previousQuantity.Some? && q > Absolute(ev.previousQuantity.value);
      var signals := (if grew then [ManualPositionAdd] else []) + (if ev.protectiveOrder then [] else [ProtectiveOrderMissing]);
      Result(if ev.shadowMode then ManagedShadow else Observed, Some(q), signals, signals != [], true)
  }

  lemma SnapshotIsStoredResult(id: Identity, p: Position, ev: Evidence, source: EventId, time: int)
    requires ev.phaseBefore == Some(Adopted)
    ensures AlertsFromSnapshot(id, p, Some(ev), source, time)
         == if ev.certainty.Certain? && Quantity(p) == 0.0 then Alerts([])
            else AlertsFromResult(id, StoredResult(p, id, ev), source, time)
  {
    hide AlertsFromResult;
  }

  lemma StoredResultCalls(ev: Evidence, req: Request)
    requires Agrees(ev, req) && ev.phaseBefore == Some(Adopted) && (ev.certainty.Uncertain? || Quantity(req.position) != 0.0)
    ensures var r := StoredResult(req.position, req.identity, ev);
            Calls(r, Codes(ev.previousQuantity, req)) && r.state == ReportedState(req) && r.quantity == Some(Quantity(req.position))
  {
    var r, q := StoredResult(req.position, req.identity, ev), Quantity(req.position);
    if req.certainty.Certain? && ActualSide(req.position) == Some(req.identity.side) {
      assert r.signals == (if q > ev.previousQuantity.value then [ManualPositionAdd] else [])
                        + (if req.protectiveOrder then [] else [ProtectiveOrderMissing]);
    }
  }

  /** Stored evidence of this request, as the repository writes it. */
  ghost predicate Agrees(ev: Evidence, req: Request) {
    && ev.certainty == req.certainty && ev.protectiveOrder == req.protectiveOrder
    && ev.shadowMode == req.shadowMode
    && WellShaped(ev)
  }

  /** The prior phase and a non-negative prior quantity are stored together or not at all. */
  ghost predicate WellShaped(ev: Evidence) {
    && (ev.phaseBefore.Some? <==> ev.previousQuantity.Some?)
    && (ev.previousQuantity.Some? ==> ev.previousQuantity.value >= 0.0)
  }

  lemma NothingExpected(managed: Option<real>, req: Request, source: EventId)
    requires managed.None? || (req.certainty.Certain? && Quantity(req.position) == 0.0)
    ensures Expected(managed, req, source) == []
  {
  }

  lemma SnapshotAlertsAreExpected(e: Option<Evidence>, req: Request, source: EventId)
    requires ValidSource(source, req.time) && (e.Some? ==> Agrees(e.value, req))
    ensures AlertsFromSnapshot(req.identity, req.position, e, source, req.time)
         == Alerts(Expected(ManagedQuantity(EvidenceProjection(e)), req, source))
  {
    hide AlertsFromResult, Codes, Calls, Raised, Expected, ReportedState, StoredResult, ActualSide;
    var managed := ManagedQuantity(EvidenceProjection(e));
    if e.None? || e.value.phaseBefore != Some(Adopted) {
      NothingExpected(managed, req, source);
    } else {
      SnapshotIsStoredResult(req.identity, req.position, e.value, source, req.time);
      hide AlertsFromSnapshot;
      assert managed == e.value.previousQuantity;
      if req.certainty.Certain? && Quantity(req.position) == 0.0 {
        NothingExpected(managed, req, source);
      } else {
        var r := StoredResult(req.position, req.identity, e.value);
        StoredResultCalls(e.value, req);
        ResultRaises(req.identity, r, source, req.time, Codes(managed, req));
        RaisedIsExpected(managed, req, r, source);
      }
    }
  }

  /** Every event of g is still there, unchanged, in h. */
  ghost predicate Extends(g: Ledger, h: Ledger) {
    forall id :: id in g.events ==> id in h.events && h.events[id] == g.events[id]
  }

  lemma AppendKeepsValid(g: Ledger, id: EventId, e: Event)
    requires ValidLedger(g) && ValidBody(e.body) && Append(g, id, e).Some?
    ensures ValidLedger(Append(g, id, e).value) && Extends(g, Append(g, id, e).value)
  {
  }

  lemma ReleaseKeepsValid(g: Ledger, req: Request, terminal: Option<(EventId, TerminalReason)>)
    requires ValidLedger(g) && ApplyRelease(g, req, terminal).Some?
    ensures ValidLedger(ApplyRelease(g, req, terminal).value) && Extends(g, ApplyRelease(g, req, terminal).value)
  {
    if terminal.Some? {
      var (releaseId, reason) := terminal.value;
      AppendKeepsValid(g, releaseId, Event(req.identity, req.time, Release(reason, req.snapshotId)));
      hide Append, ValidBody;
    }
  }

  lemma NewSnapshotKeepsValid(g: Ledger, req: Request, terminal: Option<(EventId, TerminalReason)>)
    requires ValidLedger(g) && req.snapshotId !in g.events && RecordNewSnapshot(g, req, terminal).Recorded?
    ensures var h := RecordNewSnapshot(g, req, terminal).ledger; ValidLedger(h) && Extends(g, h)
  {
    hide OrderFault, ActualSide;
    var projection := ProjectionOf(g, req.identity);
    var e := Event(req.identity, req.time, Snapshot(req.position, Some(EvidenceFor(projection, req)), terminal));
    AppendKeepsValid(g, req.snapshotId, e);
    var h := g.(events := g.events[req.snapshotId := e]);
    var seen := h.(cursors := h.cursors[req.identity := CursorFor(req.position)]);
    if projection.Some? && projection.value.phase == Adopted {
      var updated := seen.(projections := seen.projections[req.identity := projection.value.(quantity := Quantity(req.position))]);
      assert ValidLedger(updated);
      hide ApplyRelease, ValidBody;
      ReleaseKeepsValid(updated, req, terminal);
    }
  }

  /** Reconciling keeps the ledger well-formed and never touches an event once recorded. */
  lemma ReconcileKeepsValid(g: Ledger, req: Request)
    requires ValidLedger(g) && Reconcile(g, req).Reconciled?
    ensures ValidLedger(Reconcile(g, req).ledger) && Extends(g, Reconcile(g, req).ledger)
  {
    hide LiveResult, OrderFault, ActualSide, RecordNewSnapshot, ApplyRelease, ValidLedger, Extends;
    var terminal := TerminalFor(g, req);
    match RecordSnapshot(g, req, terminal)
    case Failed =>
    case OutOfOrder(reason) =>
      var body := Rejection(reason, req.snapshotId, req.position, req.protectiveOrder, req.certainty, req.shadowMode, req.mode);
      AppendKeepsValid(g, RejectionOf(req.snapshotId, req.time, reason), Event(req.identity, req.time, body));
    case Recorded(h, accepted) =>
      if req.snapshotId in g.events {
        ReleaseKeepsValid(g, req, terminal);
      } else {
        NewSnapshotKeepsValid(g, req, terminal);
      }
  }

  /** The event a fresh snapshot leaves behind holds the prior projection and the request's flags. */
  lemma FreshSnapshotEvidence(g: Ledger, req: Request)
    requires req.snapshotId !in g.events && Reconcile(g, req).Reconciled?
    ensures var out := Reconcile(g, req);
            && out.source in out.ledger.events
            && var e := out.ledger.events[out.source];
               && e.identity == req.identity && e.time == req.time
               && (out.source == req.snapshotId ==>
                     && e.body.Snapshot? && e.body.position == req.position
                     && e.body.evidence == Some(EvidenceFor(ProjectionOf(g, req.identity), req))
                     && out.result == LiveResult(ProjectionOf(g, req.identity), req, true))
               && (out.source != req.snapshotId ==> e.body.Rejection? && e.body.mode == req.mode && out.result == RejectedResult(req))
  {
    var terminal := TerminalFor(g, req);
    if terminal.Some? {
      assert terminal.value.0 == req.releaseId.value;
    }
  }

  /**
   For every request and every ledger: when a snapshot is recorded, or refused for its order, the
   alerts rebuilt from the durable event equal those projected from the live result.
   */
  lemma LiveAlertsEqualDurable(g: Ledger, req: Request)
    requires ValidLedger(g) && req.snapshotId !in g.events && Reconcile(g, req).Reconciled?
    ensures var out := Reconcile(g, req);
            && out.source in out.ledger.events
            && AlertsFromResult(req.identity, out.result, out.source, req.time)
            == AlertsFromDurable(out.source, out.ledger.events[out.source])
  {
    FreshSnapshotEvidence(g, req);
    var out := Reconcile(g, req);
    var p := ProjectionOf(g, req.identity);
    hide Reconcile, LiveResult, AlertsFromResult, AlertsFromSnapshot, Expected;
    if ValidSource(out.source, req.time) && out.source == req.snapshotId {
      LiveAlertsAreExpected(p, req, true, out.source);
      SnapshotAlertsAreExpected(Some(EvidenceFor(p, req)), req, out.source);
    } else {
      RejectionAlertsAgree(req, out.source);
    }
  }

  /** A reconcile call, or any other transaction that keeps recorded events, such as an adoption. */
  datatype Op = Call(req: Request) | Elsewhere(ledger: Ledger)

  ghost function Next(g: Ledger, op: Op): Ledger {
    match op
    case Call(req) => if Reconcile(g, req).Reconciled? then Reconcile(g, req).ledger else g
    case Elsewhere(h) => if ValidLedger(h) && Extends(g, h) then h else g
  }

  ghost function Run(ops: seq<Op>): Ledger {
    if ops == [] then Ledger(map[], map[], map[]) else Next(Run(ops[..|ops| - 1]), ops[|ops| - 1])
  }

  lemma {:induction false} RunKeepsValid(ops: seq<Op>)
    ensures ValidLedger(Run(ops))
  {
    if ops != [] {
      var g, op := Run(ops[..|ops| - 1]), ops[|ops| - 1];
      RunKeepsValid(ops[..|ops| - 1]);
      hide Reconcile, ValidLedger;
      if op.Call? && Reconcile(g, op.req).Reconciled? {
        ReconcileKeepsValid(g, op.req);
      }
    } else {
      assert ValidLedger(Ledger(map[], map[], map[]));
    }
  }

  lemma {:induction false} RunKeepsEvents(ops: seq<Op>, k: nat)
    requires k <= |ops|
    ensures Extends(Run(ops[..k]), Run(ops))
    decreases |ops|
  {
    if k == |ops| {
      assert ops[..k] == ops;
    } else {
      var front, op := ops[..|ops| - 1], ops[|ops| - 1];
      assert front[..k] == ops[..k];
      RunKeepsEvents(front, k);
      RunKeepsValid(front);
      hide Reconcile, ValidLedger;
      if op.Call? && Reconcile(Run(front), op.req).Reconciled? {
        ReconcileKeepsValid(Run(front), op.req);
      }
    }
  }

  /**
   Over every run: the alerts a call projected live when it recorded or refused a snapshot are the alerts
   that any later restart rebuilds from the durable event, whatever happened to the position since.
   */
  lemma LiveAlertsStayRecoverable(ops: seq<Op>, k: nat)
    requires k < |ops| && ops[k].Call? && ops[k].req.snapshotId !in Run(ops[..k]).events
    requires Reconcile(Run(ops[..k]), ops[k].req).Reconciled?
    ensures var out, req := Reconcile(Run(ops[..k]), ops[k].req), ops[k].req;
            && out.source in Run(ops).events
            && AlertsFromDurable(out.source, Run(ops).events[out.source])
            == AlertsFromResult(req.identity, out.result, out.source, req.time)
  {
    RunKeepsValid(ops[..k]);
    LiveAlertsEqualDurable(Run(ops[..k]), ops[k].req);
    RunKeepsEvents(ops, k + 1);
    assert ops[..k + 1][..k] == ops[..k];
    hide Reconcile, AlertsFromDurable, AlertsFromResult, ValidLedger;
  }

  lemma RejectionAlertsAgree(req: Request, source: EventId)
    ensures AlertsFromResult(req.identity, RejectedResult(req), source, req.time)
         == AlertsFromResult(req.identity, Result(DegradedState, None, [ReconciliationUncertain], true, false), source, req.time)
    ensures !ValidSource(source, req.time) ==>
              forall r :: AlertsFromResult(req.identity, r, source, req.time) == Rejected
  {
  }

  // ---------------------------------------------------------------- what a recorded snapshot does to the ledger

  /** The newly recorded snapshot of a request, on a ledger that did not hold it. */
  ghost predicate FreshlyRecorded(g: Ledger, req: Request) {
    req.snapshotId !in g.events && Reconcile(g, req).Reconciled? && Reconcile(g, req).source == req.snapshotId
  }

  /** What becomes of the managed position, by the facts of the snapshot alone. */
  ghost function SettledPhase(req: Request): Phase {
    if req.certainty.Uncertain? then Adopted
    else if req.position.amount == 0.0 then Closed
    else if Faces(req.position, req.identity.side) then Adopted
    else Released
  }

  /**
   The law of the ledger. A recorded snapshot of an adopted identity leaves the absolute amount, and the
   phase Closed if and only if it is certain of a zero amount, Released if and only if it is certain of an
   open position that does not face the managed side, and Adopted otherwise. An identity that is released
   or closed, or was never adopted, keeps its projection, and so does every other identity.
   */
  lemma RecordedSnapshotSettles(g: Ledger, req: Request)
    requires FreshlyRecorded(g, req)
    ensures var h := Reconcile(g, req).ledger;
            && (req.identity in g.projections && g.projections[req.identity].phase == Adopted ==>
                  req.identity in h.projections && h.projections[req.identity] == Projection(SettledPhase(req), Size(req.position)))
            && (req.identity in g.projections && g.projections[req.identity].phase != Adopted ==>
                  req.identity in h.projections && h.projections[req.identity] == g.projections[req.identity])
            && h.projections.Keys == g.projections.Keys
            && (forall id :: id in g.projections && id != req.identity ==> h.projections[id] == g.projections[id])
  {
    FacesIsActualSide(req.position);
    RecordedIsNew(g, req);
    hide ActualSide, Faces, LiveResult, OrderFault, CursorFor, Reconcile;
  }

  lemma RecordedIsNew(g: Ledger, req: Request)
    requires FreshlyRecorded(g, req)
    ensures RecordNewSnapshot(g, req, TerminalFor(g, req)) == Recorded(Reconcile(g, req).ledger, true)
    ensures req.identity in g.projections && g.projections[req.identity].phase == Adopted && TerminalReasonOf(req).Some? ==> req.releaseId.Some?
  {
    hide OrderFault, ApplyRelease, LiveResult, ActualSide, CursorFor;
    forall reason
      ensures RejectionOf(req.snapshotId, req.time, reason) != req.snapshotId
    {
      assert Depth(RejectionOf(req.snapshotId, req.time, reason)) == Depth(req.snapshotId) + 1;
    }
  }

  /** How many rejections an event id is wrapped in. */
  ghost function Depth(id: EventId): nat { if id.Named? then 0 else Depth(id.snapshot) + 1 }

  /** What the caller is told is what the ledger now holds; an identity nobody adopted stays without a projection. */
  lemma ResultMatchesLedger(g: Ledger, req: Request)
    requires FreshlyRecorded(g, req)
    ensures var out := Reconcile(g, req);
            var r := out.result;
            && r.accepted
            && if req.identity in out.ledger.projections then
                 && req.identity in g.projections
                 && var now := out.ledger.projections[req.identity];
                    && (r.state == ClosedState <==> now.phase == Closed)
                    && (r.state == ReleasedState <==> now.phase == Released)
                    && r.quantity == Some(if now.phase == Closed then 0.0 else Size(req.position))
                    && (now.phase == Adopted ==>
                          r.state == if req.certainty.Uncertain? then DegradedState else if req.shadowMode then ManagedShadow else Observed)
               else
                 && r.state == (if req.adoptable then Adoptable else Discovered)
                 && r.quantity == Some(Size(req.position)) && !r.attention
  {
    RecordedSnapshotSettles(g, req);
    FacesIsActualSide(req.position);
    FreshSnapshotEvidence(g, req);
    hide Reconcile, ActualSide, Faces;
  }

  /** Nothing to attend to in an identity that is not managed: one signal says why it is not. */
  lemma UnmanagedSignals(projection: Option<Projection>, req: Request, accepted: bool)
    requires projection.Some? ==> projection.value.phase != Adopted
    ensures var r := LiveResult(projection, req, accepted);
            && !r.attention && |r.signals| == 1 && r.accepted == accepted
            && (IdentityReleased in r.signals <==> projection.Some? && projection.value.phase == Released)
            && (IdentityClosed in r.signals <==> projection.Some? && projection.value.phase == Closed)
            && (AdoptionRequiresCommit in r.signals <==> projection.None? && req.adoptable)
            && (NoDurableAdoption in r.signals <==> projection.None? && !req.adoptable)
  {
    var r := LiveResult(projection, req, accepted);
    assert r.signals[0] in r.signals;
  }

  /** The signals of a managed position, by the facts: attention is asked for exactly when there is one. */
  lemma ManagedSignals(previous: real, req: Request, accepted: bool)
    ensures var r := LiveResult(Some(Projection(Adopted, previous)), req, accepted);
            var certain, q := req.certainty.Certain?, Size(req.position);
            var faces := Faces(req.position, req.identity.side);
            && (ReconciliationUncertain in r.signals <==> !certain)
            && (PositionIsClosed in r.signals <==> certain && req.position.amount == 0.0)
            && (SideFlipRequiresReapproval in r.signals <==> certain && req.position.amount != 0.0 && !faces)
            && (ManualPartialClose in r.signals <==> certain && faces && q < previous)
            && (ManualPositionAdd in r.signals <==> certain && faces && q > previous)
            && (ProtectiveOrderMissing in r.signals <==> certain && faces && !req.protectiveOrder)
            && (r.attention <==> r.signals != [])
            && (r.signals == [] <==> certain && faces && q == previous && req.protectiveOrder)
  {
    FacesIsActualSide(req.position);
    var r := LiveResult(Some(Projection(Adopted, previous)), req, accepted);
    hide ActualSide;
    if req.certainty.Certain? && Faces(req.position, req.identity.side) {
      var size := if Size(req.position) < previous then [ManualPartialClose] else if Size(req.position) > previous then [ManualPositionAdd] else [];
      assert r.signals == size + if req.protectiveOrder then [] else [ProtectiveOrderMissing];
    }
  }

  /** Two positions are the same to the private cursor. */
  ghost predicate SamePrivately(a: Position, b: Position) {
    && a.symbol == b.symbol && a.entryPrice == b.entryPrice && a.updateTime == b.updateTime && Size(a) == Size(b)
    && (Faces(a, Long) <==> Faces(b, Long)) && (Faces(a, Short) <==> Faces(b, Short))
  }

  lemma CursorSeesExactly(a: Position, b: Position)
    ensures CursorFor(a) == CursorFor(b) <==> SamePrivately(a, b)
    ensures CursorFor(a).updateTime == a.updateTime
  {
    FacesIsActualSide(a);
    FacesIsActualSide(b);
    LogicalIs(a);
    LogicalIs(b);
    hide Faces, ActualSide, Logical, Size, Quantity;
  }

  lemma LogicalIs(p: Position)
    ensures Logical(p) in {Flat, On(Long), On(Short), Improper} && (Logical(p) == Flat <==> Size(p) == 0.0)
    ensures Faces(p, Long) <==> Logical(p) == On(Long)
    ensures Faces(p, Short) <==> Logical(p) == On(Short)
  {
    assert Logical(p).On? ==> Logical(p).side == Long || Logical(p).side == Short;
  }

  /** The snapshot is older than what was seen of the identity, contradicts it, or nothing is known to compare it with. */
  ghost predicate OutOfTurn(g: Ledger, req: Request, reason: RejectionReason) {
    && (req.identity in g.projections ==> g.projections[req.identity].phase == Adopted)
    && match reason
       case MissingCursor => req.identity in g.projections && req.identity !in g.cursors
       case StaleSnapshot => req.identity in g.cursors && req.position.updateTime < g.cursors[req.identity].updateTime
       case ConflictingCursor =>
         req.identity in g.cursors && req.position.updateTime == g.cursors[req.identity].updateTime
         && g.cursors[req.identity] != CursorFor(req.position)
  }

  lemma OrderFaultIff(g: Ledger, req: Request, reason: RejectionReason)
    ensures OrderFault(g, req) == Some(reason) <==> OutOfTurn(g, req, reason)
  {
    hide CursorFor;
  }

  /** A certain observation that the position is closed or does not face the managed side, of a projected identity. */
  ghost predicate ObservesEnd(g: Ledger, req: Request) {
    req.identity in g.projections && req.certainty.Certain? && !Faces(req.position, req.identity.side)
  }

  /** The event id is taken by something else. */
  ghost predicate Taken(events: map<EventId, Event>, id: EventId, e: Event) {
    id in events && events[id] != e
  }

  ghost function ReleaseEvent(req: Request): Event {
    Event(req.identity, req.time, Release(if req.position.amount == 0.0 then PositionClosed else SideFlipped, req.snapshotId))
  }

  ghost function RejectionEvent(req: Request, reason: RejectionReason): Event {
    Event(req.identity, req.time,
          Rejection(reason, req.snapshotId, req.position, req.protectiveOrder, req.certainty, req.shadowMode, req.mode))
  }

  /** The end of a managed position is observed without a release id, or by a short amount in hedge mode. */
  ghost predicate CannotEnd(g: Ledger, req: Request) {
    && ObservesEnd(g, req)
    && (if req.releaseId.None? then g.projections[req.identity].phase == Adopted
        else req.position.side.Hedge? && req.position.amount < 0.0)
  }

  /**
   Every new snapshot, exactly: it raises when an end cannot be recorded; otherwise it is refused for the
   reason it is out of turn, which raises when no projection or a different event is in the way; otherwise
   it is recorded, which raises only when its release id is taken.
   */
  lemma FreshSnapshotOutcome(g: Ledger, req: Request)
    requires req.snapshotId !in g.events
    ensures CannotEnd(g, req) ==> Reconcile(g, req) == Error
    ensures forall reason :: !CannotEnd(g, req) && OutOfTurn(g, req, reason) ==>
              var source := RejectionOf(req.snapshotId, req.time, reason);
              if req.identity !in g.projections || Taken(g.events, source, RejectionEvent(req, reason)) then Reconcile(g, req) == Error
              else Reconcile(g, req) == Reconciled(g.(events := g.events[source := RejectionEvent(req, reason)]),
                                                   Result(DegradedState, Some(Size(req.position)), [ReconciliationUncertain], true, false), source)
    ensures !CannotEnd(g, req) && (forall reason :: !OutOfTurn(g, req, reason)) ==>
              var ends := ObservesEnd(g, req) && g.projections[req.identity].phase == Adopted;
              if ends && (req.releaseId.value == req.snapshotId || Taken(g.events, req.releaseId.value, ReleaseEvent(req)))
              then Reconcile(g, req) == Error
              else Reconcile(g, req).Reconciled? && Reconcile(g, req).source == req.snapshotId
  {
    FacesIsActualSide(req.position);
    forall reason
      ensures OrderFault(g, req) == Some(reason) <==> OutOfTurn(g, req, reason)
    {
      OrderFaultIff(g, req, reason);
    }
    hide ActualSide, OrderFault, OutOfTurn, CursorFor, LiveResult, Faces;
  }

  /** A recorded snapshot of a live identity becomes what later ones are compared with; a closed one's does not. */
  lemma RecordedSnapshotIsRemembered(g: Ledger, req: Request)
    requires FreshlyRecorded(g, req)
    ensures var h := Reconcile(g, req).ledger;
            if req.identity in g.projections && g.projections[req.identity].phase != Adopted then h.cursors == g.cursors
            else h.cursors == g.cursors[req.identity := CursorFor(req.position)]
  {
    RecordedIsNew(g, req);
    hide ActualSide, LiveResult, OrderFault, CursorFor, Reconcile;
  }

  /** The stored event is this very request, release included; what preceded it does not matter. */
  ghost predicate StoredAs(e: Event, req: Request, terminal: Option<(EventId, TerminalReason)>) {
    && e.identity == req.identity && e.time == req.time && e.body.Snapshot?
    && e.body.position == req.position && e.body.terminal == terminal
    && (e.body.evidence.Some? ==>
          var ev := e.body.evidence.value;
          && (ev.protectiveOrder <==> req.protectiveOrder) && (ev.shadowMode <==> req.shadowMode)
          && ev.certainty == req.certainty && ev.mode == req.mode)
  }

  /**
   Every repeated snapshot, exactly: it is taken as a replay if and only if the stored event is this very
   request, an end of a managed position has its release id, and that id is not taken; it then reports
   that nothing was accepted, moves no quantity or cursor, and completes a release that is still missing.
   */
  lemma ReplayOutcome(g: Ledger, req: Request)
    requires req.snapshotId in g.events
    ensures var ends := ObservesEnd(g, req);
            var adopted := req.identity in g.projections && g.projections[req.identity].phase == Adopted;
            var reason := if req.position.amount == 0.0 then PositionClosed else SideFlipped;
            var terminal := if ends && req.releaseId.Some? then Some((req.releaseId.value, reason)) else None;
            var out := Reconcile(g, req);
            && (out.Reconciled? <==>
                  && !(ends && adopted && req.releaseId.None?)
                  && StoredAs(g.events[req.snapshotId], req, terminal)
                  && (terminal.Some? ==> !Taken(g.events, req.releaseId.value, ReleaseEvent(req))))
            && (out.Reconciled? ==>
                  && out.source == req.snapshotId && !out.result.accepted && out.ledger.cursors == g.cursors
                  && out.ledger.events == (if terminal.Some? then g.events[req.releaseId.value := ReleaseEvent(req)] else g.events)
                  && out.ledger.projections == (if adopted then g.projections[req.identity := g.projections[req.identity].(phase := SettledPhase(req))]
                                                else g.projections))
  {
    FacesIsActualSide(req.position);
    hide ActualSide, Faces, OrderFault, RecordNewSnapshot;
  }

  // ---------------------------------------------------------------- the durable projection, event by event

  /** The one alert a durable event other than a snapshot calls for. */
  ghost predicate Announces(e: Event, code: Code, severity: Severity, detail: Detail) {
    match e.body
    case Rejection(_, _, _, _, _, _, _) => code == UncertainState && severity == Critical && detail == InState(DegradedState)
    case PlannedIntent(StopUpdate(c, i, p, was, now), _) =>
      code == WouldUpdateStop && severity == Info && detail == Intent(StopUpdate(c, i, p, was, now))
    case ShadowSource(stale, _) =>
      detail == Reason(stale) &&
      (if stale then code == StaleContext && severity == Warning else code == UncertainState && severity == Critical)
    case _ => false
  }

  /**
   Durable events other than snapshots: an unusable source or event is rejected; a rejection, a planned
   stop update and a shadow source each call for exactly one alert of their own kind; others for none.
   */
  lemma OtherEventsAlerts(source: EventId, e: Event)
    requires !e.body.Snapshot?
    ensures var r := AlertsFromDurable(source, e);
            && (r.Rejected? <==> !ValidSource(source, e.time) || e.body.Unreadable? || (e.body.PlannedIntent? && e.body.intent.ViolatesContract?))
            && (r.Alerts? ==> |r.list| <= 1)
            && (r.Alerts? ==> forall code, severity, detail ::
                  Announces(e, code, severity, detail) ==> r.list == [Alert(e.identity, source, e.time, code, severity, [detail])])
            && (r.Alerts? && r.list != [] ==> e.body.Rejection? || e.body.PlannedIntent? || e.body.ShadowSource?)
  {
  }

  // ---------------------------------------------------------------- replays

  /** Facts a caller can compare before replaying a request against a stored event. */
  ghost predicate ReplayAgrees(now: Option<real>, then': Option<real>, req: Request) {
    var q, same := Size(req.position), Faces(req.position, req.identity.side);
    match (now, then')
    case (None, None) => true
    case (Some(a), Some(b)) => req.certainty.Certain? && same ==> (q > a <==> q > b)
    case (Some(a), None) => req.certainty.Certain? && (q == 0.0 || (same && req.protectiveOrder && q <= a))
    case (None, Some(b)) => req.certainty.Certain? && (q == 0.0 || (same && req.protectiveOrder && q <= b))
  }

  lemma ExpectedEqualIff(a: Option<real>, b: Option<real>, req: Request, source: EventId)
    ensures Expected(a, req, source) == Expected(b, req, source) <==> ReplayAgrees(a, b, req)
  {
  }

  /**
   A replayed snapshot is projected live from the present projection but durably from the one stored
   with it; the two agree exactly when those two projections do not differ in what matters.
   */
  lemma ReplayedAlertsAgreeIff(g: Ledger, req: Request)
    requires ValidLedger(g) && ValidSource(req.snapshotId, req.time)
    requires req.snapshotId in g.events && Reconcile(g, req).Reconciled?
    ensures g.events[req.snapshotId].body.Snapshot?
    ensures var out := Reconcile(g, req);
            var stored := g.events[req.snapshotId];
            AlertsFromResult(req.identity, out.result, req.snapshotId, req.time)
            == AlertsFromDurable(req.snapshotId, stored)
            <==> ReplayAgrees(ManagedQuantity(ProjectionOf(g, req.identity)),
                              ManagedQuantity(EvidenceProjection(stored.body.evidence)), req)
  {
    var out, stored := Reconcile(g, req), g.events[req.snapshotId];
    var p := ProjectionOf(g, req.identity);
    assert SameRequest(stored, req, TerminalFor(g, req)) && out.result == LiveResult(p, req, false);
    hide Reconcile, LiveResult, AlertsFromResult, AlertsFromSnapshot, Expected, ReplayAgrees;
    LiveAlertsAreExpected(p, req, false, req.snapshotId);
    SnapshotAlertsAreExpected(stored.body.evidence, req, req.snapshotId);
    ExpectedEqualIff(ManagedQuantity(p), ManagedQuantity(EvidenceProjection(stored.body.evidence)), req, req.snapshotId);
  }

  /** Repeating one side-flip request: the ledger still yields the alert, the second live result does not. */
  lemma ReplayedSideFlipDiffers(id: Identity, position: Position, first: string, release: string)
    requires id.side == Long && position.side == Both && position.amount == -1.0
    requires !Blank(first) && |first| <= 256 && first != release
    ensures var req := Request(id, position, Named(first), 1, true, true, Certain, false, Some(Named(release)), Disabled);
            var g := Ledger(map[], map[id := Projection(Adopted, 1.0)],
                            map[id := PrivateCursor(position.symbol, On(Long), 1.0, position.entryPrice, position.updateTime - 1)]);
            && Reconcile(g, req).Reconciled?
            && var once := Reconcile(g, req).ledger;
               && Reconcile(once, req).Reconciled?
               && AlertsFromResult(id, Reconcile(once, req).result, Named(first), 1) == Alerts([])
               && Named(first) in once.events
               && AlertsFromDurable(Named(first), once.events[Named(first)])
               == Alerts([Alert(id, Named(first), 1, SideFlip, Critical, [InState(ReleasedState)])])
  {
    var req := Request(id, position, Named(first), 1, true, true, Certain, false, Some(Named(release)), Disabled);
    var g := Ledger(map[], map[id := Projection(Adopted, 1.0)],
                    map[id := PrivateCursor(position.symbol, On(Long), 1.0, position.entryPrice, position.updateTime - 1)]);
    assert ActualSide(position) == Some(Short) && Quantity(position) == 1.0;
    var terminal := Some((Named(release), SideFlipped));
    assert TerminalFor(g, req) == terminal;
    var once := Reconcile(g, req).ledger;
    assert once.projections[id] == Projection(Released, 1.0);
    assert TerminalFor(once, req) == terminal;
    assert once.events[Named(release)] == Event(id, 1, Release(SideFlipped, Named(first)));
    assert Reconcile(once, req).result == LiveResult(Some(Projection(Released, 1.0)), req, false);
    LiveAlertsAreExpected(Some(Projection(Released, 1.0)), req, false, Named(first));
    FreshSnapshotEvidence(g, req);
    SnapshotAlertsAreExpected(once.events[Named(first)].body.evidence, req, Named(first));
  }

  // ---------------------------------------------------------------- the repository as it is mutated

  class GuardianRepository {
    var ledger: Ledger

    constructor ()
      ensures ledger == Ledger(map[], map[], map[])
    {
      ledger := Ledger(map[], map[], map[]);
    }

    /**
     The recording part of a reconcile call, up to the commit. None is an exception: the transaction rolls
     back and the ledger is as before.
     */
    method RecordReconciliation(req: Request) returns (result: Option<(Result, EventId)>)
      modifies this
      ensures match Reconcile(old(ledger), req)
              case Error => result.None? && ledger == old(ledger)
              case Reconciled(h, r, source) => result == Some((r, source)) && ledger == h
    {
      var projection := ProjectionOf(ledger, req.identity);
      var reason: Option<TerminalReason> := None;
      if projection.Some? && req.certainty.Certain? {
        reason := if Quantity(req.position) == 0.0 then Some(PositionClosed)
                  else if ActualSide(req.position) != Some(req.identity.side) then Some(SideFlipped) else None;
        if projection.value.phase == Adopted && reason.Some? && req.releaseId.None? {
          return None;
        }
        if projection.value.phase != Adopted && req.releaseId.None? {
          reason := None;
        }
      }
      var terminal := if reason.Some? then Some((req.releaseId.value, reason.value)) else None;
      match RecordSnapshot(ledger, req, terminal) {
        case Failed => result := None;
        case Recorded(h, accepted) =>
          ledger := h;
          result := Some((LiveResult(projection, req, accepted), req.snapshotId));
        case OutOfOrder(why) =>
          match RecordRejection(ledger, req, why) {
            case Error => result := None;
            case Reconciled(h, r, source) =>
              ledger := h;
              result := Some((r, source));
          }
      }
    }
  }
}
