/** The Guardian alert outbox: materialising alerts from durable events, and restart recovery. */
module GuardianOutbox {
  import opened Prelude
  import L = GuardianLedger

  datatype Status = Pending | Sending | Delivered | DeliveryUncertain | Dead | DisabledRow
  datatype Row = Row(status: Status, attempts: nat)

  /** Rows are keyed by alert; an alert's id is the digest of its content, which includes its source. */
  type Rows = map<L.Alert, Row>
  type Events = map<L.EventId, L.Event>

  /** Immutable delivery authority of a source event. */
  function Authorized(events: Events, source: L.EventId): bool {
    source in events &&
    match events[source].body
    case Snapshot(_, Some(e), _) => e.mode.DiscordV1?
    case Rejection(_, _, _, _, _, _, mode) => mode.DiscordV1?
    case PlannedIntent(_, mode) => mode.DiscordV1?
    case ShadowSource(_, mode) => mode.DiscordV1?
    case _ => false
  }

  /** The event was stored with the Discord delivery mode; every other event grants nothing. */
  ghost predicate Grants(events: Events, source: L.EventId) {
    && source in events
    && var b := events[source].body;
       || (b.Snapshot? && b.evidence.Some? && b.evidence.value.mode == L.DiscordV1)
       || ((b.Rejection? || b.PlannedIntent? || b.ShadowSource?) && b.mode == L.DiscordV1)
  }

  lemma AuthorizedIsGrant(events: Events, source: L.EventId)
    ensures Authorized(events, source) <==> Grants(events, source)
  {
  }

  predicate IsSource(e: L.Event) {
    e.body.Snapshot? || e.body.Rejection? || e.body.PlannedIntent? || e.body.ShadowSource? || e.body.Unreadable?
  }

  predicate Active(s: Status) { s.Pending? || s.Sending? || s.DeliveryUncertain? }

  function ActiveRows(rows: Rows): set<L.Alert> {
    set a | a in rows && Active(rows[a].status)
  }

  // ---------------------------------------------------------------- materialisation

  function NewRow(events: Events, a: L.Alert): Row {
    Row(if Authorized(events, a.source) then Pending else DisabledRow, 0)
  }

  /** Rows after an enqueue and whether it inserted; None is the capacity error. */
  function Enqueue(events: Events, rows: Rows, alert: L.Alert, limit: nat): Option<(Rows, bool)> {
    if alert in rows then Some((rows, false))
    else if Authorized(events, alert.source) && |ActiveRows(rows)| >= limit then None
    else Some((rows[alert := NewRow(events, alert)], true))
  }

  /** Rows and insertion count after enqueuing a list in order; `ok` is false once capacity ran out. */
  datatype Filled = Filled(rows: Rows, inserted: nat, ok: bool)

  function Fill(events: Events, rows: Rows, alerts: seq<L.Alert>, limit: nat): Filled {
    if alerts == [] then Filled(rows, 0, true)
    else
      var f := Fill(events, rows, alerts[..|alerts| - 1], limit);
      if !f.ok then f
      else match Enqueue(events, f.rows, alerts[|alerts| - 1], limit)
        case None => f.(ok := false)
        case Some((next, inserted)) => Filled(next, f.inserted + if inserted then 1 else 0, true)
  }

  /** Alerts of a list of source events in order; None when one of them is unusable. */
  function Projected(events: Events, order: seq<L.EventId>): Option<seq<L.Alert>> {
    if order == [] then Some([])
    else
      var id := order[|order| - 1];
      match Projected(events, order[..|order| - 1])
      case None => None
      case Some(list) =>
        if id !in events then None
        else match L.AlertsFromDurable(id, events[id])
          case Rejected => None
          case Alerts(more) => Some(list + more)
  }

  // ---------------------------------------------------------------- restart recovery

  function Quarantine(rows: Rows): Rows {
    map a | a in rows :: if rows[a].status.Sending? then rows[a].(status := DeliveryUncertain) else rows[a]
  }

  function Disallow(events: Events, rows: Rows): Rows {
    map a | a in rows :: Disallowed(events, a, rows[a])
  }

  function Disallowed(events: Events, a: L.Alert, row: Row): Row {
    if !row.status.Pending? || Authorized(events, a.source) then row
    else if a.source !in events || events[a.source].body.Unreadable? then row.(status := Dead)
    else row.(status := DisabledRow)
  }

  function Prepared(events: Events, rows: Rows): Rows { Disallow(events, Quarantine(rows)) }

  function CountIn(rows: Rows, s: Status): nat { |set a | a in rows && rows[a].status == s| }

  /** How many rows the authority pass settles, after quarantine. */
  function CountDisallowed(events: Events, rows: Rows): nat {
    |set a | a in rows && Quarantine(rows)[a] != Disallowed(events, a, Quarantine(rows)[a])|
  }

  /** Every source event exactly once, in some order. */
  ghost predicate Lists(events: Events, order: seq<L.EventId>) {
    Distinct(order) && forall id :: id in order <==> id in events && IsSource(events[id])
  }

  /** Some durable source event projects to this alert. */
  ghost predicate Yields(events: Events, a: L.Alert) {
    && a.source in events && IsSource(events[a.source])
    && L.AlertsFromDurable(a.source, events[a.source]).Alerts?
    && a in L.AlertsFromDurable(a.source, events[a.source]).list
  }

  /** Each row was materialised from a durable source event. */
  ghost predicate Grounded(events: Events, rows: Rows) {
    forall a :: a in rows ==> Yields(events, a)
  }

  lemma ResultAlertsNameSource(id: L.Identity, r: L.Result, source: L.EventId, time: int, a: L.Alert)
    requires L.AlertsFromResult(id, r, source, time).Alerts? && a in L.AlertsFromResult(id, r, source, time).list
    ensures a.source == source
  {
  }

  lemma AlertsNameTheirSource(id: L.EventId, e: L.Event, a: L.Alert)
    requires L.AlertsFromDurable(id, e).Alerts? && a in L.AlertsFromDurable(id, e).list
    ensures a.source == id && IsSource(e)
  {
    forall r: L.Result | L.AlertsFromResult(e.identity, r, id, e.time).Alerts? && a in L.AlertsFromResult(e.identity, r, id, e.time).list
      ensures a.source == id
    {
      ResultAlertsNameSource(e.identity, r, id, e.time, a);
    }
    hide L.AlertsFromResult, L.ActualSide, L.Quantity, L.ValidSource;
  }

  lemma {:induction false} ProjectedMembers(events: Events, order: seq<L.EventId>)
    requires Projected(events, order).Some?
    ensures forall a :: a in Projected(events, order).value <==> a.source in order && Yields(events, a)
  {
    if order != [] {
      var front, id := order[..|order| - 1], order[|order| - 1];
      assert order == front + [id];
      ProjectedMembers(events, front);
      var more := L.AlertsFromDurable(id, events[id]).list;
      forall a | a in more
        ensures a.source == id && Yields(events, a)
      {
        AlertsNameTheirSource(id, events[id], a);
      }
      hide L.AlertsFromDurable;
      assert Projected(events, order).value == Projected(events, front).value + more;
    }
  }

  /** Enqueuing keeps existing rows, adds exactly the listed alerts and puts none in flight. */
  lemma {:induction false} FillKeys(events: Events, rows: Rows, alerts: seq<L.Alert>, limit: nat)
    ensures var f := Fill(events, rows, alerts, limit);
            && (forall a :: a in rows ==> a in f.rows && f.rows[a] == rows[a])
            && (forall a :: a in f.rows && a !in rows ==> a in alerts && f.rows[a] == NewRow(events, a))
            && (f.ok ==> forall a :: a in alerts ==> a in f.rows)
            && (f.ok && (forall a :: a in alerts ==> a in rows) ==> f.inserted == 0 && f.rows == rows)
  {
    if alerts != [] {
      var front, last := alerts[..|alerts| - 1], alerts[|alerts| - 1];
      assert alerts == front + [last];
      FillKeys(events, rows, front, limit);
      hide Authorized;
    }
  }

  lemma {:induction false} FillPresent(events: Events, rows: Rows, alerts: seq<L.Alert>, limit: nat)
    requires forall a :: a in alerts ==> a in rows
    ensures Fill(events, rows, alerts, limit) == Filled(rows, 0, true)
  {
    if alerts != [] {
      FillPresent(events, rows, alerts[..|alerts| - 1], limit);
    }
  }

  /** How many of the listed alerts need a pending slot: authorised, not there yet, counted once. */
  function Needed(events: Events, rows: Rows, alerts: seq<L.Alert>): nat {
    if alerts == [] then 0
    else
      var front, last := alerts[..|alerts| - 1], alerts[|alerts| - 1];
      Needed(events, rows, front) +
      if last !in rows && last !in front && Authorized(events, last.source) then 1 else 0
  }

  lemma EnqueueActive(events: Events, rows: Rows, alert: L.Alert, limit: nat)
    requires Enqueue(events, rows, alert, limit).Some?
    ensures var n := Enqueue(events, rows, alert, limit).value.0;
            |ActiveRows(n)| == |ActiveRows(rows)| + if alert !in rows && Authorized(events, alert.source) then 1 else 0
  {
    var n := Enqueue(events, rows, alert, limit).value.0;
    if alert !in rows {
      assert ActiveRows(n) == ActiveRows(rows) + if Authorized(events, alert.source) then {alert} else {};
    }
  }

  /** Capacity, exactly: the list fits when nothing needs a slot or all needed slots are free. */
  lemma {:induction false} FillSucceedsIff(events: Events, rows: Rows, alerts: seq<L.Alert>, limit: nat)
    ensures var f := Fill(events, rows, alerts, limit);
            var need := Needed(events, rows, alerts);
            && (f.ok <==> need == 0 || |ActiveRows(rows)| + need <= limit)
            && (f.ok ==> |ActiveRows(f.rows)| == |ActiveRows(rows)| + need)
  {
    hide Authorized, ActiveRows;
    if alerts != [] {
      var front, last := alerts[..|alerts| - 1], alerts[|alerts| - 1];
      FillSucceedsIff(events, rows, front, limit);
      FillKeys(events, rows, front, limit);
      var f := Fill(events, rows, front, limit);
      assert f.ok ==> (last in f.rows <==> last in rows || last in front);
      if f.ok && Enqueue(events, f.rows, last, limit).Some? {
        EnqueueActive(events, f.rows, last, limit);
      }
    }
  }

  /** What a completed recovery reports and leaves; None is an exception part-way. */
  datatype Recovery = Recovery(rows: Rows, inserted: nat, quarantined: nat, disabled: nat)

  function Recover(events: Events, rows: Rows, order: seq<L.EventId>, limit: nat): Option<Recovery> {
    match Projected(events, order)
    case None => None
    case Some(alerts) =>
      var f := Fill(events, Prepared(events, rows), alerts, limit);
      if f.ok then
        Some(Recovery(f.rows, f.inserted, CountIn(rows, Sending), CountDisallowed(events, rows)))
      else None
  }

  /** The outbox left by a recovery that stops after `cut` alerts of the events it got through. */
  function Interrupted(events: Events, rows: Rows, order: seq<L.EventId>, cut: nat, limit: nat): Rows {
    var alerts := Projected(events, order).GetOr([]);
    Fill(events, Prepared(events, rows), if cut <= |alerts| then alerts[..cut] else [], limit).rows
  }

  /** The alerts a durable event projects to; none for a missing or unusable event. */
  function ListedAlerts(events: Events, source: L.EventId): seq<L.Alert> {
    if source in events && L.AlertsFromDurable(source, events[source]).Alerts? then
      L.AlertsFromDurable(source, events[source]).list
    else []
  }

  /**
   From any outbox a crash can leave, a completed recovery makes the outbox hold exactly the alerts of
   all source events, leaves none in flight, and keeps every finished row as it was.
   */
  lemma RecoveryRestoresOutbox(events: Events, rows: Rows, order: seq<L.EventId>, limit: nat)
    requires Lists(events, order) && Grounded(events, rows) && Recover(events, rows, order, limit).Some?
    ensures var r := Recover(events, rows, order, limit).value;
            && Grounded(events, r.rows)
            && (forall a :: a in r.rows <==> Yields(events, a))
            && (forall a :: a in r.rows ==> !r.rows[a].status.Sending?)
            && (forall a :: a in r.rows && r.rows[a].status.Pending? ==> Authorized(events, a.source))
            && (forall a :: a in rows ==> r.rows[a].attempts == rows[a].attempts)
            && (forall a :: a in rows && !rows[a].status.Sending? && !rows[a].status.Pending? ==> r.rows[a] == rows[a])
  {
    hide L.AlertsFromDurable, Authorized, IsSource, Fill, Projected, Prepared, Yields;
    var alerts := Projected(events, order).value;
    ProjectedMembers(events, order);
    PreparedSettles(events, rows);
    FillKeys(events, Prepared(events, rows), alerts, limit);
    ProjectedIsComplete(events, order);
  }

  /** The first two recovery passes: nothing stays in flight or pending without authority. */
  lemma PreparedSettles(events: Events, rows: Rows)
    ensures var p := Prepared(events, rows);
            && p.Keys == rows.Keys
            && (forall a :: a in rows ==> p[a].attempts == rows[a].attempts && !p[a].status.Sending?)
            && (forall a :: a in rows && p[a].status.Pending? ==> rows[a].status.Pending? && Authorized(events, a.source))
            && (forall a :: a in rows && !rows[a].status.Sending? && !rows[a].status.Pending? ==> p[a] == rows[a])
  {
  }

  /** What those passes do to each row, by its status and its source event. */
  lemma PreparedRow(events: Events, rows: Rows, a: L.Alert)
    requires a in rows
    ensures var row, p := rows[a], Prepared(events, rows);
            && a in p && p[a].attempts == row.attempts
            && (row.status.Sending? ==> p[a].status.DeliveryUncertain?)
            && (row.status.Pending? && Grants(events, a.source) ==> p[a].status.Pending?)
            && (row.status.Pending? && !Grants(events, a.source) ==>
                p[a].status == if a.source in events && !events[a.source].body.Unreadable? then DisabledRow else Dead)
            && (!row.status.Sending? && !row.status.Pending? ==> p[a] == row)
  {
    AuthorizedIsGrant(events, a.source);
    hide Authorized, Grants;
  }

  /** The recovery report counts the rows found in flight and the pending rows without a grant. */
  lemma ReportCounts(events: Events, rows: Rows)
    ensures CountIn(rows, Sending) == |set a | a in rows && rows[a].status.Sending?|
    ensures CountDisallowed(events, rows) == |set a | a in rows && rows[a].status.Pending? && !Grants(events, a.source)|
  {
    assert (set a | a in rows && rows[a].status.Sending?) == set a | a in rows && rows[a].status == Sending;
    forall a | a in rows
      ensures Quarantine(rows)[a] != Disallowed(events, a, Quarantine(rows)[a]) <==> rows[a].status.Pending? && !Grants(events, a.source)
    {
      AuthorizedIsGrant(events, a.source);
    }
    hide Authorized, Grants, Disallowed, Quarantine;
    assert (set a | a in rows && Quarantine(rows)[a] != Disallowed(events, a, Quarantine(rows)[a]))
        == set a | a in rows && rows[a].status.Pending? && !Grants(events, a.source);
  }

  /** A slot is taken by exactly the rows pending, in flight or of uncertain delivery. */
  lemma SlotsTaken(rows: Rows)
    ensures |ActiveRows(rows)| == CountIn(rows, Pending) + CountIn(rows, Sending) + CountIn(rows, DeliveryUncertain)
  {
    var pending := set a | a in rows && rows[a].status == Pending;
    var sending := set a | a in rows && rows[a].status == Sending;
    var uncertain := set a | a in rows && rows[a].status == DeliveryUncertain;
    assert ActiveRows(rows) == pending + sending + uncertain;
    hide ActiveRows;
    DisjointSum(pending, sending);
    DisjointSum(pending + sending, uncertain);
  }

  lemma DisjointSum(a: set<L.Alert>, b: set<L.Alert>)
    requires a !! b
    ensures |a + b| == |a| + |b|
  {
  }

  /** One enqueue: a known alert changes nothing, a granted one needs a free slot, any other is kept disabled. */
  lemma EnqueueDecision(events: Events, rows: Rows, a: L.Alert, limit: nat)
    ensures var taken := CountIn(rows, Pending) + CountIn(rows, Sending) + CountIn(rows, DeliveryUncertain);
            var out := Enqueue(events, rows, a, limit);
            && (out.None? <==> a !in rows && Grants(events, a.source) && taken >= limit)
            && (out.Some? ==> out.value.1 == (a !in rows) && (a in rows ==> out.value.0 == rows))
            && (out.Some? && a !in rows ==>
                out.value.0 == rows[a := Row(if Grants(events, a.source) then Pending else DisabledRow, 0)])
  {
    SlotsTaken(rows);
    AuthorizedIsGrant(events, a.source);
    hide Authorized, Grants, ActiveRows, CountIn;
  }

  lemma ProjectedIsComplete(events: Events, order: seq<L.EventId>)
    requires Lists(events, order) && Projected(events, order).Some?
    ensures forall a :: a in Projected(events, order).value <==> Yields(events, a)
  {
    hide L.AlertsFromDurable, IsSource, Projected;
    ProjectedMembers(events, order);
  }

  /** A second recovery inserts, quarantines and disables nothing, whatever order it lists events in. */
  lemma SecondRecoveryChangesNothing(events: Events, rows: Rows, order: seq<L.EventId>, again: seq<L.EventId>, limit: nat)
    requires Lists(events, order) && Lists(events, again) && Grounded(events, rows)
    requires Recover(events, rows, order, limit).Some? && Projected(events, again).Some?
    ensures var first := Recover(events, rows, order, limit).value.rows;
            Recover(events, first, again, limit) == Some(Recovery(first, 0, 0, 0))
  {
    RecoveryRestoresOutbox(events, rows, order, limit);
    var first := Recover(events, rows, order, limit).value.rows;
    var alerts := Projected(events, again).value;
    ProjectedIsComplete(events, again);
    hide L.AlertsFromDurable, Authorized, IsSource, Projected, Yields;
    assert Quarantine(first) == first;
    assert Prepared(events, first) == first;
    FillPresent(events, first, alerts, limit);
    assert (set a | a in first && first[a].status == Sending) == {};
    assert (set a | a in first && Quarantine(first)[a] != Disallowed(events, a, Quarantine(first)[a])) == {};
  }

  /** Recovery completes exactly when every source event is usable and the missing pending alerts fit. */
  lemma RecoveryCompletesIff(events: Events, rows: Rows, order: seq<L.EventId>, limit: nat)
    ensures Recover(events, rows, order, limit).Some? <==>
            && Projected(events, order).Some?
            && var ready := Prepared(events, rows);
               var need := Needed(events, ready, Projected(events, order).value);
               need == 0 || |ActiveRows(ready)| + need <= limit
  {
    if Projected(events, order).Some? {
      FillSucceedsIff(events, Prepared(events, rows), Projected(events, order).value, limit);
    }
  }

  lemma {:induction false} FillConcat(events: Events, rows: Rows, done: seq<L.Alert>, more: seq<L.Alert>, limit: nat)
    requires Fill(events, rows, done, limit).ok
    ensures var f := Fill(events, rows, done, limit);
            var g := Fill(events, f.rows, more, limit);
            Fill(events, rows, done + more, limit) == Filled(g.rows, f.inserted + g.inserted, g.ok)
    decreases |more|
  {
    if more == [] {
      assert done + more == done;
    } else {
      var front := more[..|more| - 1];
      FillConcat(events, rows, done, front, limit);
      var all := done + more;
      assert all[..|all| - 1] == done + front && all[|all| - 1] == more[|more| - 1];
      hide Enqueue;
    }
  }

  lemma {:induction false} ProjectionFails(events: Events, order: seq<L.EventId>, k: nat)
    requires k <= |order| && Projected(events, order[..k]).None?
    ensures Projected(events, order).None?
    decreases |order|
  {
    if k == |order| {
      assert order[..k] == order;
    } else {
      assert order[..|order| - 1][..k] == order[..k];
      ProjectionFails(events, order[..|order| - 1], k);
    }
  }

  lemma {:induction false} FillFails(events: Events, rows: Rows, alerts: seq<L.Alert>, limit: nat, k: nat)
    requires k <= |alerts| && !Fill(events, rows, alerts[..k], limit).ok
    ensures Fill(events, rows, alerts, limit) == Fill(events, rows, alerts[..k], limit)
    decreases |alerts|
  {
    if k == |alerts| {
      assert alerts[..k] == alerts;
    } else {
      assert alerts[..|alerts| - 1][..k] == alerts[..k];
      FillFails(events, rows, alerts[..|alerts| - 1], limit, k);
    }
  }

  lemma {:induction false} ProjectedPrefix(events: Events, order: seq<L.EventId>, k: nat)
    requires k <= |order| && Projected(events, order).Some?
    ensures Projected(events, order[..k]).Some?
    ensures Projected(events, order[..k]).value <= Projected(events, order).value
    decreases |order|
  {
    if k == |order| {
      assert order[..k] == order;
    } else {
      var front := order[..|order| - 1];
      assert front[..k] == order[..k];
      ProjectedPrefix(events, front, k);
    }
  }

  lemma OverflowSticks(events: Events, rows: Rows, order: seq<L.EventId>, limit: nat, done: seq<L.Alert>, i: nat,
                       list: seq<L.Alert>)
    requires i < |order| && order[i] in events
    requires Projected(events, order[..i]) == Some(done) && L.AlertsFromDurable(order[i], events[order[i]]) == L.Alerts(list)
    requires !Fill(events, rows, done + list, limit).ok
    ensures Projected(events, order).Some? ==> !Fill(events, rows, Projected(events, order).value, limit).ok
  {
    hide L.AlertsFromDurable, Enqueue;
    if Projected(events, order).Some? {
      ProjectedPrefix(events, order, i + 1);
      assert order[..i + 1][..i] == order[..i];
      var all := Projected(events, order).value;
      assert all[..|done + list|] == done + list;
      FillFails(events, rows, all, limit, |done + list|);
    }
  }

  // ---------------------------------------------------------------- every row has its source event

  lemma {:induction false} ProjectedIsGrounded(events: Events, order: seq<L.EventId>, a: L.Alert)
    requires a in Projected(events, order).GetOr([])
    ensures Yields(events, a)
  {
    hide L.AlertsFromDurable, IsSource, Projected;
    ProjectedMembers(events, order);
  }

  lemma ListedIsGrounded(events: Events, source: L.EventId, a: L.Alert)
    requires a in ListedAlerts(events, source)
    ensures Yields(events, a)
  {
    AlertsNameTheirSource(source, events[source], a);
  }

  lemma FillGrounded(events: Events, rows: Rows, alerts: seq<L.Alert>, limit: nat)
    requires Grounded(events, rows) && forall a :: a in alerts ==> Yields(events, a)
    ensures Grounded(events, Fill(events, rows, alerts, limit).rows)
  {
    hide Yields, Fill, Authorized;
    FillKeys(events, rows, alerts, limit);
  }

  /** Whatever part of a recovery ran, every row still has its durable source event. */
  lemma InterruptedGrounded(events: Events, rows: Rows, order: seq<L.EventId>, cut: nat, limit: nat)
    requires Grounded(events, rows)
    ensures Grounded(events, Interrupted(events, rows, order, cut, limit))
  {
    hide Yields, Fill, Authorized, Projected, Prepared;
    var all := Projected(events, order).GetOr([]);
    var alerts := if cut <= |all| then all[..cut] else [];
    forall a | a in alerts
      ensures Yields(events, a)
    {
      ProjectedIsGrounded(events, order, a);
    }
    PreparedSettles(events, rows);
    assert Grounded(events, Prepared(events, rows));
    FillGrounded(events, Prepared(events, rows), alerts, limit);
  }

  lemma RecoverIsFill(events: Events, rows: Rows, order: seq<L.EventId>, limit: nat)
    requires Recover(events, rows, order, limit).Some?
    ensures exists cut :: Recover(events, rows, order, limit).value.rows == Interrupted(events, rows, order, cut, limit)
  {
    hide Fill, Projected, Prepared;
    var alerts := Projected(events, order).value;
    assert alerts[..|alerts|] == alerts;
    assert Recover(events, rows, order, limit).value.rows == Interrupted(events, rows, order, |alerts|, limit);
  }

  lemma RecordGrounded(events: Events, rows: Rows, source: L.EventId, event: L.Event)
    requires Grounded(events, rows) && source !in events
    ensures Grounded(events[source := event], rows)
  {
    forall a | a in rows
      ensures Yields(events[source := event], a)
    {
      assert Yields(events, a);
      hide L.AlertsFromDurable;
    }
  }

  // ---------------------------------------------------------------- as it runs

  /** Enqueues the alerts of one source event, one transaction each. */
  method Materialize(events: Events, rows: Rows, alerts: seq<L.Alert>, limit: nat) returns (next: Rows, inserted: nat, ok: bool)
    ensures Filled(next, inserted, ok) == Fill(events, rows, alerts, limit)
  {
    next, inserted := rows, 0;
    for j := 0 to |alerts|
      invariant Filled(next, inserted, true) == Fill(events, rows, alerts[..j], limit)
    {
      assert alerts[..j + 1][..j] == alerts[..j];
      match Enqueue(events, next, alerts[j], limit) {
        case None =>
          FillFails(events, rows, alerts, limit, j + 1);
          return next, inserted, false;
        case Some((more, added)) =>
          next := more;
          inserted := inserted + if added then 1 else 0;
      }
    }
    assert alerts[..|alerts|] == alerts;
    ok := true;
  }

  /** The counts a completed startup recovery reports. */
  datatype Report = Report(scanned: nat, projected: nat, inserted: nat, quarantined: nat, disabled: nat)

  function ReportOf(events: Events, rows: Rows, order: seq<L.EventId>, limit: nat): Option<Report> {
    var r, alerts := Recover(events, rows, order, limit), Projected(events, order).GetOr([]);
    if r.None? then None
    else Some(Report(|order|, |alerts|, r.value.inserted, r.value.quarantined, r.value.disabled))
  }

  /** The outbox is that of a recovery cut off after `cut` alerts of the first k events. */
  ghost predicate StoppedAt(events: Events, rows: Rows, order: seq<L.EventId>, k: nat, cut: nat, limit: nat, left: Rows) {
    k <= |order| && left == Interrupted(events, rows, order[..k], cut, limit)
  }

  ghost predicate FilledUpTo(events: Events, ready: Rows, order: seq<L.EventId>, k: nat, limit: nat, left: Rows) {
    && k <= |order| && Projected(events, order[..k]).Some?
    && left == Fill(events, ready, Projected(events, order[..k]).value, limit).rows
  }

  lemma ProjectedStep(events: Events, order: seq<L.EventId>, i: nat, done: seq<L.Alert>)
    requires i < |order| && Projected(events, order[..i]) == Some(done)
    ensures var id := order[i];
            Projected(events, order[..i + 1]) ==
            if id in events && L.AlertsFromDurable(id, events[id]).Alerts?
            then Some(done + L.AlertsFromDurable(id, events[id]).list) else None
  {
    hide L.AlertsFromDurable;
    assert order[..i + 1][..i] == order[..i];
  }

  /** The loop over source events, stopping at the first failure. */
  method FillEvents(events: Events, ready: Rows, order: seq<L.EventId>, limit: nat)
    returns (left: Rows, inserted: nat, projected: nat, ok: bool)
    ensures var alerts := Projected(events, order);
            && ok == (alerts.Some? && Fill(events, ready, alerts.value, limit).ok)
            && (ok ==> Filled(left, inserted, true) == Fill(events, ready, alerts.value, limit) && projected == |alerts.value|)
    ensures exists k: nat :: FilledUpTo(events, ready, order, k, limit, left)
  {
    ghost var done: seq<L.Alert> := [];
    NothingToFill(events, ready, limit);
    assert Projected(events, order[..0]) == Some([]);
    hide Authorized, L.AlertsFromDurable, Projected, Fill;
    left, inserted, projected := ready, 0, 0;
    for i := 0 to |order|
      invariant Projected(events, order[..i]) == Some(done) && projected == |done|
      invariant Fill(events, ready, done, limit) == Filled(left, inserted, true)
    {
      var id := order[i];
      ProjectedStep(events, order, i, done);
      if id !in events || L.AlertsFromDurable(id, events[id]).Rejected? {
        ProjectionFails(events, order, i + 1);
        assert FilledUpTo(events, ready, order, i, limit, left);
        return left, inserted, projected, false;
      }
      var alerts := L.AlertsFromDurable(id, events[id]).list;
      FillConcat(events, ready, done, alerts, limit);
      var next, more, fits := Materialize(events, left, alerts, limit);
      left := next;
      if !fits {
        OverflowSticks(events, ready, order, limit, done, i, alerts);
        assert FilledUpTo(events, ready, order, i + 1, limit, left);
        return left, inserted, projected, false;
      }
      inserted, projected := inserted + more, projected + |alerts|;
      done := done + alerts;
    }
    assert order[..|order|] == order;
    assert FilledUpTo(events, ready, order, |order|, limit, left);
    ok := true;
  }

  /** Restart recovery: quarantine, settle what lost its authority, then rebuild what is missing. */
  method RecoverAlerts(events: Events, rows: Rows, order: seq<L.EventId>, limit: nat) returns (left: Rows, report: Option<Report>)
    ensures report == ReportOf(events, rows, order, limit)
    ensures report.Some? ==> Recover(events, rows, order, limit).Some? && left == Recover(events, rows, order, limit).value.rows
    ensures exists k: nat, cut: nat :: StoppedAt(events, rows, order, k, cut, limit, left)
  {
    hide Projected, Fill, Prepared, CountDisallowed;
    var quarantined := CountIn(rows, Sending);
    var disabled := CountDisallowed(events, rows);
    var inserted, projected, ok;
    left, inserted, projected, ok := FillEvents(events, Prepared(events, rows), order, limit);
    ghost var k: nat :| FilledUpTo(events, Prepared(events, rows), order, k, limit, left);
    ghost var part := Projected(events, order[..k]).value;
    assert part[..|part|] == part;
    assert StoppedAt(events, rows, order, k, |part|, limit, left);
    report := if ok then Some(Report(|order|, projected, inserted, quarantined, disabled)) else None;
  }

  // ---------------------------------------------------------------- reconciling and materialising

  lemma ExtensionGrounded(g: L.Ledger, h: L.Ledger, rows: Rows)
    requires L.Extends(g, h) && Grounded(g.events, rows)
    ensures Grounded(h.events, rows)
  {
    forall a | a in rows
      ensures Yields(h.events, a)
    {
      assert Yields(g.events, a);
      hide L.AlertsFromDurable;
    }
  }

  /**
   The alerts of a recorded or order-refused snapshot reach the outbox: when the call returns they are all
   there, and when the outbox was full, the call having raised after its event was committed, the next
   completed recovery puts them there.
   */
  lemma CommittedAlertsReachOutbox(g: L.Ledger, rows: Rows, req: L.Request, limit: nat, order: seq<L.EventId>, later: nat)
    requires L.ValidLedger(g) && Grounded(g.events, rows) && req.snapshotId !in g.events && L.Reconcile(g, req).Reconciled?
    requires L.ValidSource(L.Reconcile(g, req).source, req.time)
    ensures var out := L.Reconcile(g, req);
            var h, r, source := out.ledger, out.result, out.source;
            var live := L.AlertsFromResult(req.identity, r, source, req.time);
            var f := Fill(h.events, rows, ListedAlerts(h.events, source), limit);
            && live.Alerts? && Grounded(h.events, f.rows)
            && (f.ok ==> forall a :: a in live.list ==> a in f.rows)
            && (Lists(h.events, order) && Recover(h.events, f.rows, order, later).Some? ==>
                forall a :: a in live.list ==> a in Recover(h.events, f.rows, order, later).value.rows)
  {
    var out := L.Reconcile(g, req);
    var h, r, source := out.ledger, out.result, out.source;
    L.LiveAlertsEqualDurable(g, req);
    L.ReconcileKeepsValid(g, req);
    LiveIsAlerts(req.identity, r, source, req.time);
    ExtensionGrounded(g, h, rows);
    hide L.Reconcile, L.AlertsFromDurable, L.AlertsFromResult, L.ValidLedger, Yields, Fill, Recover, Projected, Authorized, Grounded;
    var alerts := ListedAlerts(h.events, source);
    var f := Fill(h.events, rows, alerts, limit);
    forall a | a in alerts
      ensures Yields(h.events, a)
    {
      ListedIsGrounded(h.events, source, a);
    }
    FillGrounded(h.events, rows, alerts, limit);
    FillKeys(h.events, rows, alerts, limit);
    if Lists(h.events, order) && Recover(h.events, f.rows, order, later).Some? {
      RecoveryRestoresOutbox(h.events, f.rows, order, later);
    }
  }

  /**
   The delivery mode of the request decides: every alert a fresh snapshot adds to the outbox is pending if
   the request asked for Discord delivery and disabled otherwise.
   */
  lemma RequestDecidesDelivery(g: L.Ledger, rows: Rows, req: L.Request, limit: nat, a: L.Alert)
    requires req.snapshotId !in g.events && L.Reconcile(g, req).Reconciled?
    ensures var out := L.Reconcile(g, req);
            var f := Fill(out.ledger.events, rows, ListedAlerts(out.ledger.events, out.source), limit);
            a in f.rows && a !in rows ==> f.rows[a] == Row(if req.mode.DiscordV1? then Pending else DisabledRow, 0)
  {
    var out := L.Reconcile(g, req);
    var alerts := ListedAlerts(out.ledger.events, out.source);
    FillKeys(out.ledger.events, rows, alerts, limit);
    if a in alerts {
      AlertsNameTheirSource(out.source, out.ledger.events[out.source], a);
      AuthorizedIsGrant(out.ledger.events, out.source);
      RecordedGrant(g, req);
      hide L.Reconcile, L.AlertsFromDurable, Fill, Authorized, Grants;
    }
  }

  lemma RecordedGrant(g: L.Ledger, req: L.Request)
    requires req.snapshotId !in g.events && L.Reconcile(g, req).Reconciled?
    ensures var out := L.Reconcile(g, req);
            out.source in out.ledger.events && (Grants(out.ledger.events, out.source) <==> req.mode.DiscordV1?)
  {
    L.FreshSnapshotEvidence(g, req);
    hide L.Reconcile, L.LiveResult, L.RejectedResult;
  }

  lemma LiveIsAlerts(id: L.Identity, r: L.Result, source: L.EventId, time: int)
    requires L.ValidSource(source, time)
    ensures L.AlertsFromResult(id, r, source, time).Alerts?
  {
  }

  /** The repository's ledger and outbox, as one reconcile call changes them. */
  class ReconcilingRepository {
    const store: L.GuardianRepository
    var rows: Rows

    constructor (store: L.GuardianRepository)
      ensures this.store == store && rows == map[]
    {
      this.store, this.rows := store, map[];
    }

    /**
     Records, then materialises. None is an exception: before the recording commits nothing has changed;
     afterwards the event stays and so do the alerts that fitted.
     */
    method ReconcileOnce(req: L.Request, limit: nat) returns (result: Option<L.Result>)
      modifies this`rows, store
      ensures match L.Reconcile(old(store.ledger), req)
              case Error => result.None? && store.ledger == old(store.ledger) && rows == old(rows)
              case Reconciled(h, r, source) =>
                var f := Fill(h.events, old(rows), ListedAlerts(h.events, source), limit);
                && store.ledger == h && rows == f.rows
                && result == if f.ok && source in h.events && L.AlertsFromDurable(source, h.events[source]).Alerts? then Some(r) else None
    {
      hide L.Reconcile, L.AlertsFromDurable, Fill, Authorized;
      var recorded := store.RecordReconciliation(req);
      if recorded.None? {
        return None;
      }
      var (r, source) := recorded.value;
      var events := store.ledger.events;
      if source !in events || L.AlertsFromDurable(source, events[source]).Rejected? {
        NothingToFill(events, rows, limit);
        return None;
      }
      var next, _, ok := Materialize(events, rows, L.AlertsFromDurable(source, events[source]).list, limit);
      rows := next;
      result := if ok then Some(r) else None;
    }
  }

  lemma NothingToFill(events: Events, rows: Rows, limit: nat)
    ensures Fill(events, rows, [], limit) == Filled(rows, 0, true)
  {
  }
}
