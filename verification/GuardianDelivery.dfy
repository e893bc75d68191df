/**
 Delivery of outbox alerts to Discord by any number of interleaved tasks, with crashes, restarts and
 interrupted recoveries at any point.
 */
module GuardianDelivery {
  import opened Prelude
  import opened GuardianOutbox
  import L = GuardianLedger

  // ---------------------------------------------------------------- delivery by interleaved tasks

  /** How a POST can end. */
  datatype Answer = TransportError | Confirmed | AcceptedWithoutId | RateLimited | ServerError | Refused

  datatype Task =
    | Claiming(alert: L.Alert)
    | Holding(alert: L.Alert, attempt: nat)
    | Answered(alert: L.Alert, attempt: nat, answer: Answer)

  /** `maxAttempts` is the setting of the process now running. */
  datatype Machine = Machine(events: Events, rows: Rows, tasks: map<nat, Task>, recovered: bool,
                             posts: map<L.Alert, seq<Answer>>, maxAttempts: nat)

  /** `Crash` ends the process; the next one runs with the given setting. */
  datatype Step =
    | Start(task: nat, alert: L.Alert)
    | Claim(task: nat)
    | RefusePayload(task: nat)
    | Post(task: nat, answer: Answer)
    | Mark(task: nat)
    | Abort(task: nat)
    | Crash(maxAttempts: nat)
    | Restart(order: seq<L.EventId>, limit: nat)
    | InterruptedRestart(order: seq<L.EventId>, cut: nat, limit: nat)
    | EnqueueAlert(source: L.EventId, index: nat, limit: nat)
    | Record(source: L.EventId, event: L.Event)

  function Posts(m: Machine, a: L.Alert): seq<Answer> {
    if a in m.posts then m.posts[a] else []
  }

  /** The status an answered attempt is marked with. */
  function Outcome(answer: Answer, attempt: nat, maxAttempts: nat): Status {
    match answer
    case Confirmed => Delivered
    case RateLimited => if attempt < maxAttempts then Pending else Dead
    case Refused => Dead
    case _ => DeliveryUncertain
  }

  function ClaimRow(events: Events, a: L.Alert, row: Row): Row
    requires row.status.Pending?
  {
    if Authorized(events, a.source) then Row(Sending, row.attempts + 1) else Disallowed(events, a, row)
  }

  function Without(tasks: map<nat, Task>, t: nat): map<nat, Task> { tasks - {t} }

  function StartStep(m: Machine, t: nat, a: L.Alert): Machine {
    if m.recovered && t !in m.tasks then m.(tasks := m.tasks[t := Claiming(a)]) else m
  }

  function ClaimStep(m: Machine, t: nat): Machine {
    if t !in m.tasks || !m.tasks[t].Claiming? then m
    else
      var a := m.tasks[t].alert;
      if a !in m.rows || !m.rows[a].status.Pending? then m.(tasks := Without(m.tasks, t))
      else Claimed(m, t, a, ClaimRow(m.events, a, m.rows[a]))
  }

  function RefuseStep(m: Machine, t: nat): Machine {
    if t !in m.tasks || !m.tasks[t].Holding? then m
    else m.(rows := MarkRow(m.rows, m.tasks[t].alert, Dead), tasks := Without(m.tasks, t))
  }

  function PostStep(m: Machine, t: nat, answer: Answer): Machine {
    if t !in m.tasks || !m.tasks[t].Holding? then m
    else
      var a := m.tasks[t].alert;
      m.(tasks := m.tasks[t := Answered(a, m.tasks[t].attempt, answer)], posts := m.posts[a := Posts(m, a) + [answer]])
  }

  function MarkStep(m: Machine, t: nat): Machine {
    if t !in m.tasks || !m.tasks[t].Answered? then m
    else
      var Answered(a, attempt, answer) := m.tasks[t];
      var status := Outcome(answer, attempt, m.maxAttempts);
      var marked := a in m.rows && m.rows[a].status.Sending?;
      m.(rows := MarkRow(m.rows, a, status),
         tasks := if marked && status.Pending? then m.tasks[t := Claiming(a)] else Without(m.tasks, t))
  }

  function RestartStep(m: Machine, order: seq<L.EventId>, limit: nat): Machine {
    var r := Recover(m.events, m.rows, order, limit);
    if r.Some? then m.(rows := r.value.rows, recovered := true) else m
  }

  function EnqueueStep(m: Machine, source: L.EventId, index: nat, limit: nat): Machine {
    var alerts := ListedAlerts(m.events, source);
    m.(rows := Fill(m.events, m.rows, if index < |alerts| then [alerts[index]] else [], limit).rows)
  }

  function RecordStep(m: Machine, source: L.EventId, event: L.Event): Machine {
    if source in m.events then m else m.(events := m.events[source := event])
  }

  function Next(m: Machine, s: Step): Machine {
    match s
    case Start(t, a) => StartStep(m, t, a)
    case Claim(t) => ClaimStep(m, t)
    case RefusePayload(t) => RefuseStep(m, t)
    case Post(t, answer) => PostStep(m, t, answer)
    case Mark(t) => MarkStep(m, t)
    case Abort(t) => m.(tasks := Without(m.tasks, t))
    case Crash(setting) => m.(tasks := map[], recovered := false, maxAttempts := setting)
    case Restart(order, limit) => RestartStep(m, order, limit)
    case InterruptedRestart(order, cut, limit) => m.(rows := Interrupted(m.events, m.rows, order, cut, limit))
    case EnqueueAlert(source, index, limit) => EnqueueStep(m, source, index, limit)
    case Record(source, event) => RecordStep(m, source, event)
  }

  /** The compare-and-set out of SENDING. */
  function MarkRow(rows: Rows, a: L.Alert, status: Status): Rows {
    if a in rows && rows[a].status.Sending? then rows[a := rows[a].(status := status)] else rows
  }

  function Run(m: Machine, steps: seq<Step>): Machine {
    if steps == [] then m
    else Next(Run(m, steps[..|steps| - 1]), steps[|steps| - 1])
  }

  // ---------------------------------------------------------------- at most one ambiguous POST

  ghost predicate AllLimited(posts: seq<Answer>) {
    forall i :: 0 <= i < |posts| ==> posts[i].RateLimited?
  }

  /** Every POST but the last was definitely rate-limited. */
  ghost predicate OnlyLastMatters(posts: seq<Answer>) {
    forall i :: 0 <= i < |posts| - 1 ==> posts[i].RateLimited?
  }

  predicate Holds(task: Task, a: L.Alert) { !task.Claiming? && task.alert == a }

  /** What one claimed task knows about its alert. */
  ghost predicate TaskOk(m: Machine, task: Task) {
    match task
    case Claiming(_) => true
    case Holding(a, n) => a in m.rows && n == m.rows[a].attempts && |Posts(m, a)| < n && AllLimited(Posts(m, a))
    case Answered(a, n, answer) =>
      a in m.rows && n == m.rows[a].attempts && Posts(m, a) != [] && Posts(m, a)[|Posts(m, a)| - 1] == answer
  }

  ghost predicate RowOk(bound: nat, m: Machine, a: L.Alert) {
    && OnlyLastMatters(Posts(m, a))
    && (a !in m.rows ==> Posts(m, a) == [])
    && (a in m.rows ==> |Posts(m, a)| <= m.rows[a].attempts <= bound)
    && (a in m.rows && m.rows[a].status.Pending? ==>
          m.rows[a].attempts < bound && AllLimited(Posts(m, a)) && forall t :: t in m.tasks ==> !Holds(m.tasks[t], a))
  }

  ghost predicate Inv(bound: nat, m: Machine) {
    && m.maxAttempts <= bound
    && (forall a :: RowOk(bound, m, a))
    && (forall t :: t in m.tasks ==> TaskOk(m, m.tasks[t]))
    && (forall t, u :: t in m.tasks && u in m.tasks && !m.tasks[t].Claiming? && Holds(m.tasks[u], m.tasks[t].alert) ==> t == u)
  }

  lemma ClaimRowSettles(events: Events, a: L.Alert, row: Row)
    requires row.status.Pending?
    ensures var r := ClaimRow(events, a, row);
            !r.status.Pending? && r.attempts == row.attempts + if r.status.Sending? then 1 else 0
  {
  }

  /** The machine after task t claimed its alert's row. */
  function Claimed(m: Machine, t: nat, a: L.Alert, row: Row): Machine {
    m.(rows := m.rows[a := row],
       tasks := if row.status.Sending? then m.tasks[t := Holding(a, row.attempts)] else Without(m.tasks, t))
  }

  lemma ClaimKeepsInv(bound: nat, m: Machine, t: nat)
    requires Inv(bound, m)
    ensures Inv(bound, ClaimStep(m, t))
  {
    hide Authorized, ClaimRow, Inv;
    if t in m.tasks && m.tasks[t].Claiming? {
      var a := m.tasks[t].alert;
      if a in m.rows && m.rows[a].status.Pending? {
        ClaimRowSettles(m.events, a, m.rows[a]);
        ClaimedKeepsInv(bound, m, t, a, ClaimRow(m.events, a, m.rows[a]));
      } else {
        InvSetting(bound, m);
        TasksOnlyLeave(bound, m, m.(tasks := Without(m.tasks, t)));
      }
    }
  }

  lemma ClaimedKeepsInv(bound: nat, m: Machine, t: nat, a: L.Alert, row: Row)
    requires Inv(bound, m) && a in m.rows && m.rows[a].status.Pending?
    requires !row.status.Pending? && row.attempts == m.rows[a].attempts + if row.status.Sending? then 1 else 0
    ensures Inv(bound, Claimed(m, t, a, row))
  {
    var n := Claimed(m, t, a, row);
    assert RowOk(bound, m, a);
    forall u | u in n.tasks
      ensures TaskOk(n, n.tasks[u])
    {
      assert u in m.tasks ==> TaskOk(m, m.tasks[u]);
    }
    forall b
      ensures RowOk(bound, n, b)
    {
      assert RowOk(bound, m, b) && Posts(n, b) == Posts(m, b);
    }
  }

  lemma PostKeepsInv(bound: nat, m: Machine, t: nat, answer: Answer)
    requires Inv(bound, m)
    ensures Inv(bound, PostStep(m, t, answer))
  {
    var n := PostStep(m, t, answer);
    if t in m.tasks && m.tasks[t].Holding? {
      var a := m.tasks[t].alert;
      assert TaskOk(m, m.tasks[t]);
      assert RowOk(bound, m, a);
      assert Posts(n, a) == Posts(m, a) + [answer];
      forall b
        ensures RowOk(bound, n, b)
      {
        assert RowOk(bound, m, b);
        assert b != a ==> Posts(n, b) == Posts(m, b);
      }
      forall u | u in n.tasks
        ensures TaskOk(n, n.tasks[u])
      {
        assert TaskOk(m, m.tasks[u]);
      }
    }
  }

  /** A row whose last POST was rate-limited too has only rate-limited POSTs. */
  lemma LimitedToTheEnd(posts: seq<Answer>)
    requires OnlyLastMatters(posts) && posts != [] && posts[|posts| - 1].RateLimited?
    ensures AllLimited(posts)
  {
    forall i | 0 <= i < |posts|
      ensures posts[i].RateLimited?
    {
      assert i < |posts| - 1 || i == |posts| - 1;
    }
  }

  lemma MarkKeepsInv(bound: nat, m: Machine, t: nat)
    requires Inv(bound, m)
    ensures Inv(bound, MarkStep(m, t))
  {
    var n := MarkStep(m, t);
    if t in m.tasks && m.tasks[t].Answered? {
      var a := m.tasks[t].alert;
      assert TaskOk(m, m.tasks[t]) && RowOk(bound, m, a);
      if m.tasks[t].answer.RateLimited? {
        LimitedToTheEnd(Posts(m, a));
      }
      hide AllLimited, OnlyLastMatters;
      forall b
        ensures RowOk(bound, n, b)
      {
        assert RowOk(bound, m, b) && Posts(n, b) == Posts(m, b);
      }
    }
  }

  lemma RefuseKeepsInv(bound: nat, m: Machine, t: nat)
    requires Inv(bound, m)
    ensures Inv(bound, RefuseStep(m, t))
  {
    var n := RefuseStep(m, t);
    forall b
      ensures RowOk(bound, n, b)
    {
      assert RowOk(bound, m, b) && Posts(n, b) == Posts(m, b);
    }
  }

  /** New or re-statused rows that never return to PENDING and keep their attempts preserve the invariant. */
  lemma RowsOnlySettle(bound: nat, m: Machine, rows: Rows)
    requires Inv(bound, m) && bound >= 1
    requires forall a :: a in m.rows ==> a in rows && rows[a].attempts == m.rows[a].attempts
    requires forall a :: a in m.rows && rows[a].status.Pending? ==> m.rows[a].status.Pending?
    requires forall a :: a in rows && a !in m.rows ==> rows[a].attempts == 0
    ensures Inv(bound, m.(rows := rows))
  {
    var n := m.(rows := rows);
    forall a
      ensures RowOk(bound, n, a)
    {
      assert RowOk(bound, m, a) && Posts(n, a) == Posts(m, a);
    }
    forall t | t in n.tasks
      ensures TaskOk(n, n.tasks[t])
    {
      assert TaskOk(m, m.tasks[t]);
    }
  }

  lemma RestartKeepsInv(bound: nat, m: Machine, order: seq<L.EventId>, limit: nat)
    requires Inv(bound, m) && bound >= 1
    ensures Inv(bound, RestartStep(m, order, limit))
  {
    var ready := Prepared(m.events, m.rows);
    if Recover(m.events, m.rows, order, limit).Some? {
      var rows := Recover(m.events, m.rows, order, limit).value.rows;
      PreparedSettles(m.events, m.rows);
      FillKeys(m.events, ready, Projected(m.events, order).value, limit);
      RowsOnlySettle(bound, m, rows);
      TasksOnlyLeave(bound, m.(rows := rows), RestartStep(m, order, limit));
    }
  }

  lemma FillKeepsInv(bound: nat, m: Machine, alerts: seq<L.Alert>, limit: nat)
    requires Inv(bound, m) && bound >= 1
    ensures Inv(bound, m.(rows := Fill(m.events, m.rows, alerts, limit).rows))
  {
    hide Authorized, Fill, Inv;
    FillKeys(m.events, m.rows, alerts, limit);
    RowsOnlySettle(bound, m, Fill(m.events, m.rows, alerts, limit).rows);
  }

  lemma InterruptedRestartKeepsInv(bound: nat, m: Machine, order: seq<L.EventId>, cut: nat, limit: nat)
    requires Inv(bound, m) && bound >= 1
    ensures Inv(bound, m.(rows := Interrupted(m.events, m.rows, order, cut, limit)))
  {
    hide Authorized, Fill, Inv, Prepared, Projected;
    PreparedSettles(m.events, m.rows);
    var ready := m.(rows := Prepared(m.events, m.rows));
    RowsOnlySettle(bound, m, ready.rows);
    var alerts := Projected(m.events, order).GetOr([]);
    FillKeepsInv(bound, ready, if cut <= |alerts| then alerts[..cut] else [], limit);
  }

  lemma StepKeepsInv(bound: nat, m: Machine, s: Step)
    requires Inv(bound, m) && bound >= 1 && (s.Crash? ==> s.maxAttempts <= bound)
    ensures Inv(bound, Next(m, s))
  {
    hide Inv, Fill, Projected, Prepared, Authorized, L.AlertsFromDurable, Interrupted, ListedAlerts;
    hide ClaimStep, RefuseStep, PostStep, MarkStep, RestartStep;
    match s
    case Claim(t) => ClaimKeepsInv(bound, m, t);
    case RefusePayload(t) => RefuseKeepsInv(bound, m, t);
    case Post(t, answer) => PostKeepsInv(bound, m, t, answer);
    case Mark(t) => MarkKeepsInv(bound, m, t);
    case Restart(order, limit) => RestartKeepsInv(bound, m, order, limit);
    case InterruptedRestart(order, cut, limit) => InterruptedRestartKeepsInv(bound, m, order, cut, limit);
    case EnqueueAlert(source, index, limit) =>
      var alerts := ListedAlerts(m.events, source);
      FillKeepsInv(bound, m, if index < |alerts| then [alerts[index]] else [], limit);
    case _ =>
      InvSetting(bound, m);
      TasksOnlyLeave(bound, m, Next(m, s));
  }

  lemma InvSetting(bound: nat, m: Machine)
    requires Inv(bound, m)
    ensures m.maxAttempts <= bound
  {
  }

  lemma TasksOnlyLeave(bound: nat, m: Machine, n: Machine)
    requires Inv(bound, m) && n.rows == m.rows && n.posts == m.posts && n.maxAttempts <= bound
    requires forall t :: t in n.tasks ==> n.tasks[t].Claiming? || (t in m.tasks && n.tasks[t] == m.tasks[t])
    ensures Inv(bound, n)
  {
    forall a
      ensures RowOk(bound, n, a)
    {
      assert RowOk(bound, m, a) && Posts(n, a) == Posts(m, a);
    }
    forall t | t in n.tasks
      ensures TaskOk(n, n.tasks[t])
    {
      assert t in m.tasks ==> TaskOk(m, m.tasks[t]);
    }
  }

  /** A store nothing was posted from yet. */
  ghost predicate Initial(m: Machine) {
    m.tasks == map[] && m.posts == map[] && forall a :: a in m.rows ==> m.rows[a].attempts == 0
  }

  /** The greatest setting any process of the run used. */
  function Greatest(first: nat, steps: seq<Step>): nat {
    if steps == [] then first
    else
      var g, s := Greatest(first, steps[..|steps| - 1]), steps[|steps| - 1];
      if s.Crash? && s.maxAttempts > g then s.maxAttempts else g
  }

  lemma {:induction false} RunKeepsInv(bound: nat, m: Machine, steps: seq<Step>)
    requires Initial(m) && 1 <= m.maxAttempts && Greatest(m.maxAttempts, steps) <= bound
    ensures bound >= 1 && Inv(bound, Run(m, steps))
  {
    if steps != [] {
      RunKeepsInv(bound, m, steps[..|steps| - 1]);
      StepKeepsInv(bound, Run(m, steps[..|steps| - 1]), steps[|steps| - 1]);
    }
  }

  /**
   Over every interleaving of deliveries, crashes, restarts and enqueues: each alert is POSTed at most as
   often as the greatest `max_attempts` any process of the run had, every POST before the last one was
   definitely rate-limited, and once a POST ends otherwise no further step can POST that alert again.
   */
  lemma AtMostOneAmbiguousPost(m: Machine, steps: seq<Step>, more: seq<Step>, a: L.Alert)
    requires Initial(m) && m.maxAttempts >= 1
    ensures var posts := Posts(Run(m, steps), a);
            && |posts| <= Greatest(m.maxAttempts, steps)
            && OnlyLastMatters(posts)
            && (!AllLimited(posts) ==> Posts(Run(m, steps + more), a) == posts)
  {
    var bound := Greatest(m.maxAttempts, steps);
    RunKeepsInv(bound, m, steps);
    var reached := Run(m, steps);
    assert RowOk(bound, reached, a);
    if !AllLimited(Posts(reached, a)) {
      NothingPostedAfter(m, steps, more, a);
    }
  }

  lemma {:induction false} NothingPostedAfter(m: Machine, steps: seq<Step>, more: seq<Step>, a: L.Alert)
    requires Initial(m) && m.maxAttempts >= 1 && !AllLimited(Posts(Run(m, steps), a))
    ensures Posts(Run(m, steps + more), a) == Posts(Run(m, steps), a)
    decreases |more|
  {
    if more == [] {
      assert steps + more == steps;
    } else {
      var front, s := more[..|more| - 1], more[|more| - 1];
      hide Next, Inv, TaskOk, AllLimited, Greatest, Initial, Run, Posts;
      NothingPostedAfter(m, steps, front, a);
      assert steps + more == steps + front + [s];
      RunSnoc(m, steps + front, s);
      var bound, before := Greatest(m.maxAttempts, steps + front), Run(m, steps + front);
      RunKeepsInv(bound, m, steps + front);
      NobodyHolds(bound, before, s, a);
      OnlyHoldersPost(before, s, a);
    }
  }

  lemma RunSnoc(m: Machine, steps: seq<Step>, s: Step)
    ensures Run(m, steps + [s]) == Next(Run(m, steps), s)
  {
    hide Next;
    assert (steps + [s])[..|steps|] == steps;
  }

  lemma NobodyHolds(bound: nat, m: Machine, s: Step, a: L.Alert)
    requires Inv(bound, m) && !AllLimited(Posts(m, a))
    ensures s.Post? && s.task in m.tasks && m.tasks[s.task].Holding? ==> m.tasks[s.task].alert != a
  {
    assert s.Post? && s.task in m.tasks ==> TaskOk(m, m.tasks[s.task]);
  }

  lemma OnlyHoldersPost(m: Machine, s: Step, a: L.Alert)
    requires s.Post? && s.task in m.tasks && m.tasks[s.task].Holding? ==> m.tasks[s.task].alert != a
    ensures Posts(Next(m, s), a) == Posts(m, a)
  {
    hide ClaimRow, Outcome, MarkRow, Recover, Interrupted, Fill, ListedAlerts;
  }

  // ---------------------------------------------------------------- what a status tells

  /** The message may or may not have reached Discord. */
  ghost predicate Ambiguous(answer: Answer) {
    answer.TransportError? || answer.AcceptedWithoutId? || answer.ServerError?
  }

  /** No POST of these can have produced a message. */
  ghost predicate NoneArrived(posts: seq<Answer>) {
    forall i :: 0 <= i < |posts| ==> posts[i].RateLimited? || posts[i].Refused?
  }

  ghost predicate Began(start: Machine, a: L.Alert, status: Status) {
    a in start.rows && start.rows[a].status == status
  }

  /** What the last POST and the row of an alert say about each other; `calm` while no recovery has run. */
  ghost predicate StatusFits(calm: bool, start: Machine, a: L.Alert, status: Status, posts: seq<Answer>) {
    && (status.Delivered? && !Began(start, a, Delivered) ==> posts != [] && posts[|posts| - 1].Confirmed?)
    && (status.DeliveryUncertain? && calm && !Began(start, a, DeliveryUncertain) ==> posts != [] && Ambiguous(posts[|posts| - 1]))
    && (status.Dead? ==> NoneArrived(posts))
    && (status.DisabledRow? ==> posts == [])
    && (posts != [] && !status.Sending? && (calm || !status.DeliveryUncertain?) ==>
          var last := posts[|posts| - 1];
          (last.Confirmed? ==> status.Delivered?) && (last.Refused? ==> status.Dead?) && (Ambiguous(last) ==> status.DeliveryUncertain?))
  }

  ghost predicate RowTells(calm: bool, start: Machine, m: Machine, a: L.Alert) {
    && (Posts(m, a) != [] ==> Grants(m.events, a.source))
    && (a in m.rows ==> StatusFits(calm, start, a, m.rows[a].status, Posts(m, a)))
  }

  ghost predicate TaskTells(calm: bool, m: Machine, task: Task) {
    task.Claiming? ||
    (task.alert in m.rows && Grants(m.events, task.alert.source) &&
     var s := m.rows[task.alert].status; s.Sending? || (s.DeliveryUncertain? && !calm))
  }

  ghost predicate Told(calm: bool, start: Machine, m: Machine) {
    && (forall a :: RowTells(calm, start, m, a))
    && (forall t :: t in m.tasks ==> TaskTells(calm, m, m.tasks[t]))
  }

  /** A row changes outside the deliveries only this way: left alone, quarantined, or refused for want of a grant. */
  ghost predicate SettledRow(calm: bool, events: Events, a: L.Alert, row: Row, next: Row) {
    || next == row
    || (row.status.Sending? && next.status.DeliveryUncertain? && !calm)
    || (row.status.Pending? && !Grants(events, a.source) && (next.status.Dead? || next.status.DisabledRow?))
  }

  lemma SettlingTold(calm: bool, start: Machine, bound: nat, m: Machine, rows: Rows)
    requires Inv(bound, m) && Told(calm, start, m)
    requires forall a :: a in m.rows ==> a in rows && SettledRow(calm, m.events, a, m.rows[a], rows[a])
    requires forall a :: a in rows && a !in m.rows ==> rows[a].status.Pending? || rows[a].status.DisabledRow?
    ensures Told(calm, start, m.(rows := rows))
  {
    var n := m.(rows := rows);
    forall a
      ensures RowTells(calm, start, n, a)
    {
      assert RowTells(calm, start, m, a) && Posts(n, a) == Posts(m, a);
      assert RowOk(bound, m, a);
    }
    forall t | t in n.tasks
      ensures TaskTells(calm, n, n.tasks[t])
    {
      assert TaskTells(calm, m, m.tasks[t]);
    }
  }

  /** Losing the certainty that no recovery has run costs nothing else. */
  lemma NoLongerCalm(start: Machine, m: Machine, calm: bool)
    requires Told(calm, start, m)
    ensures Told(false, start, m)
  {
    forall a
      ensures RowTells(false, start, m, a)
    {
      assert RowTells(calm, start, m, a);
    }
    forall t | t in m.tasks
      ensures TaskTells(false, m, m.tasks[t])
    {
      assert TaskTells(calm, m, m.tasks[t]);
    }
  }

  lemma FillTold(calm: bool, start: Machine, bound: nat, m: Machine, alerts: seq<L.Alert>, limit: nat)
    requires Inv(bound, m) && Told(calm, start, m)
    ensures Told(calm, start, m.(rows := Fill(m.events, m.rows, alerts, limit).rows))
  {
    FillKeys(m.events, m.rows, alerts, limit);
    hide Authorized, Fill, Inv, Told, Grants;
    SettlingTold(calm, start, bound, m, Fill(m.events, m.rows, alerts, limit).rows);
  }

  lemma InterruptedTold(start: Machine, bound: nat, m: Machine, order: seq<L.EventId>, cut: nat, limit: nat)
    requires Inv(bound, m) && bound >= 1 && Told(false, start, m)
    ensures Told(false, start, m.(rows := Interrupted(m.events, m.rows, order, cut, limit)))
  {
    hide Authorized, Fill, Inv, Prepared, Projected, Told, Grants;
    var ready := m.(rows := Prepared(m.events, m.rows));
    PreparedSettles(m.events, m.rows);
    forall a | a in m.rows
      ensures a in ready.rows && SettledRow(false, m.events, a, m.rows[a], ready.rows[a])
    {
      PreparedRow(m.events, m.rows, a);
    }
    SettlingTold(false, start, bound, m, ready.rows);
    RowsOnlySettle(bound, m, ready.rows);
    var alerts := Projected(m.events, order).GetOr([]);
    FillTold(false, start, bound, ready, if cut <= |alerts| then alerts[..cut] else [], limit);
  }

  lemma TasksTold(calm: bool, start: Machine, m: Machine, n: Machine)
    requires Told(calm, start, m) && n.rows == m.rows && n.posts == m.posts
    requires forall id :: id in m.events ==> id in n.events && n.events[id] == m.events[id]
    requires forall t :: t in n.tasks ==> n.tasks[t].Claiming? || (t in m.tasks && n.tasks[t] == m.tasks[t])
    ensures Told(calm, start, n)
  {
    forall a
      ensures RowTells(calm, start, n, a)
    {
      assert RowTells(calm, start, m, a) && Posts(n, a) == Posts(m, a);
    }
    forall t | t in n.tasks
      ensures TaskTells(calm, n, n.tasks[t])
    {
      assert t in m.tasks ==> TaskTells(calm, m, m.tasks[t]);
    }
  }

  lemma ClaimTold(calm: bool, start: Machine, bound: nat, m: Machine, t: nat)
    requires Inv(bound, m) && Told(calm, start, m)
    ensures Told(calm, start, ClaimStep(m, t))
  {
    var n := ClaimStep(m, t);
    if t in m.tasks && m.tasks[t].Claiming? {
      var a := m.tasks[t].alert;
      if a in m.rows && m.rows[a].status.Pending? {
        AuthorizedIsGrant(m.events, a.source);
        ClaimedTold(calm, start, bound, m, t, a, ClaimRow(m.events, a, m.rows[a]));
      } else {
        TasksTold(calm, start, m, n);
      }
    }
  }

  lemma ClaimedTold(calm: bool, start: Machine, bound: nat, m: Machine, t: nat, a: L.Alert, row: Row)
    requires Inv(bound, m) && Told(calm, start, m) && a in m.rows && m.rows[a].status.Pending?
    requires if Grants(m.events, a.source) then row.status.Sending? else row.status.Dead? || row.status.DisabledRow?
    ensures Told(calm, start, Claimed(m, t, a, row))
  {
    var n := Claimed(m, t, a, row);
    assert RowOk(bound, m, a) && RowTells(calm, start, m, a);
    hide Grants;
    forall b
      ensures RowTells(calm, start, n, b)
    {
      assert RowTells(calm, start, m, b) && Posts(n, b) == Posts(m, b);
    }
    forall u | u in n.tasks
      ensures TaskTells(calm, n, n.tasks[u])
    {
      assert u in m.tasks ==> TaskTells(calm, m, m.tasks[u]);
    }
  }

  lemma PostTold(calm: bool, start: Machine, m: Machine, t: nat, answer: Answer)
    requires Told(calm, start, m)
    ensures Told(calm, start, PostStep(m, t, answer))
  {
    var n := PostStep(m, t, answer);
    if t in m.tasks && m.tasks[t].Holding? {
      var a := m.tasks[t].alert;
      assert TaskTells(calm, m, m.tasks[t]);
      hide Grants;
      forall b
        ensures RowTells(calm, start, n, b)
      {
        assert RowTells(calm, start, m, b);
        assert b != a ==> Posts(n, b) == Posts(m, b);
      }
      forall u | u in n.tasks
        ensures TaskTells(calm, n, n.tasks[u])
      {
        assert TaskTells(calm, m, m.tasks[u]);
      }
    }
  }

  /** Settling the row that task t holds, in the way the POSTs so far call for. */
  lemma HeldTold(calm: bool, start: Machine, bound: nat, m: Machine, t: nat, status: Status, n: Machine)
    requires Inv(bound, m) && Told(calm, start, m) && t in m.tasks && !m.tasks[t].Claiming?
    requires var a := m.tasks[t].alert;
             && n.rows == MarkRow(m.rows, a, status) && n.posts == m.posts && n.events == m.events
             && StatusFits(calm, start, a, status, Posts(m, a))
    requires forall u :: u in n.tasks ==> n.tasks[u].Claiming? || (u in m.tasks && u != t && n.tasks[u] == m.tasks[u])
    ensures Told(calm, start, n)
  {
    var a := m.tasks[t].alert;
    hide Grants, StatusFits;
    forall b
      ensures RowTells(calm, start, n, b)
    {
      assert RowTells(calm, start, m, b) && Posts(n, b) == Posts(m, b);
    }
    forall u | u in n.tasks
      ensures TaskTells(calm, n, n.tasks[u])
    {
      assert u in m.tasks ==> TaskTells(calm, m, m.tasks[u]);
    }
  }

  lemma MarkTold(calm: bool, start: Machine, bound: nat, m: Machine, t: nat)
    requires Inv(bound, m) && Told(calm, start, m)
    ensures Told(calm, start, MarkStep(m, t))
  {
    if t in m.tasks && m.tasks[t].Answered? {
      var Answered(a, attempt, answer) := m.tasks[t];
      assert TaskOk(m, m.tasks[t]) && RowOk(bound, m, a);
      OutcomeFits(calm, start, a, Posts(m, a), attempt, m.maxAttempts);
      hide Inv, Told, StatusFits, Outcome;
      HeldTold(calm, start, bound, m, t, Outcome(answer, attempt, m.maxAttempts), MarkStep(m, t));
    }
  }

  lemma OutcomeFits(calm: bool, start: Machine, a: L.Alert, posts: seq<Answer>, attempt: nat, maxAttempts: nat)
    requires posts != [] && OnlyLastMatters(posts)
    ensures StatusFits(calm, start, a, Outcome(posts[|posts| - 1], attempt, maxAttempts), posts)
  {
  }

  lemma RefuseTold(calm: bool, start: Machine, bound: nat, m: Machine, t: nat)
    requires Inv(bound, m) && Told(calm, start, m)
    ensures Told(calm, start, RefuseStep(m, t))
  {
    if t in m.tasks && m.tasks[t].Holding? {
      var a := m.tasks[t].alert;
      assert TaskOk(m, m.tasks[t]);
      assert StatusFits(calm, start, a, Dead, Posts(m, a));
      hide Inv, Told, StatusFits;
      HeldTold(calm, start, bound, m, t, Dead, RefuseStep(m, t));
    }
  }

  ghost predicate IsRecovery(s: Step) { s.Restart? || s.InterruptedRestart? }

  lemma RestartTold(start: Machine, bound: nat, m: Machine, order: seq<L.EventId>, limit: nat)
    requires Inv(bound, m) && bound >= 1 && Told(false, start, m)
    ensures Told(false, start, RestartStep(m, order, limit))
  {
    hide Inv, Told, Fill, Projected, Prepared, Interrupted, Recover;
    if Recover(m.events, m.rows, order, limit).Some? {
      RecoverIsFill(m.events, m.rows, order, limit);
      var cut :| Recover(m.events, m.rows, order, limit).value.rows == Interrupted(m.events, m.rows, order, cut, limit);
      InterruptedTold(start, bound, m, order, cut, limit);
      TasksTold(false, start, m.(rows := Interrupted(m.events, m.rows, order, cut, limit)), RestartStep(m, order, limit));
    }
  }

  lemma StepTold(calm: bool, start: Machine, bound: nat, m: Machine, s: Step)
    requires Inv(bound, m) && bound >= 1 && Told(calm, start, m)
    ensures Told(calm && !IsRecovery(s), start, Next(m, s))
  {
    hide Inv, Told, Fill, Projected, Prepared, Authorized, L.AlertsFromDurable, Interrupted, ListedAlerts;
    hide ClaimStep, RefuseStep, PostStep, MarkStep, RestartStep, StartStep, RecordStep;
    NoLongerCalm(start, m, calm);
    match s
    case Claim(t) => ClaimTold(calm, start, bound, m, t);
    case RefusePayload(t) => RefuseTold(calm, start, bound, m, t);
    case Post(t, answer) => PostTold(calm, start, m, t, answer);
    case Mark(t) => MarkTold(calm, start, bound, m, t);
    case Restart(order, limit) => RestartTold(start, bound, m, order, limit);
    case InterruptedRestart(order, cut, limit) => InterruptedTold(start, bound, m, order, cut, limit);
    case EnqueueAlert(source, index, limit) =>
      var alerts := ListedAlerts(m.events, source);
      FillTold(calm, start, bound, m, if index < |alerts| then [alerts[index]] else [], limit);
    case _ => QuietStepTold(calm, start, m, s);
  }

  /** Steps that touch neither rows nor POSTs. */
  lemma QuietStepTold(calm: bool, start: Machine, m: Machine, s: Step)
    requires Told(calm, start, m) && (s.Start? || s.Abort? || s.Crash? || s.Record?)
    ensures Told(calm, start, Next(m, s))
  {
    hide Told;
    TasksTold(calm, start, m, Next(m, s));
  }

  /** No recovery runs between the start and the end. */
  ghost predicate Calm(steps: seq<Step>) {
    forall i :: 0 <= i < |steps| ==> !IsRecovery(steps[i])
  }

  lemma {:induction false} RunTold(m: Machine, steps: seq<Step>)
    requires Initial(m) && m.maxAttempts >= 1
    ensures Told(Calm(steps), m, Run(m, steps))
  {
    if steps == [] {
      assert forall a :: Posts(m, a) == [];
      assert forall a :: RowTells(true, m, m, a);
    } else {
      var front, s := steps[..|steps| - 1], steps[|steps| - 1];
      var bound := Greatest(m.maxAttempts, front);
      RunTold(m, front);
      RunKeepsInv(bound, m, front);
      hide Told, Inv, Next;
      StepTold(Calm(front), m, bound, Run(m, front), s);
      assert steps == front + [s];
      assert Calm(steps) <==> Calm(front) && !IsRecovery(s);
    }
  }

  /**
   Over every interleaving with crashes and restarts, for a row that did not start out delivered: DELIVERED
   means the last POST was confirmed, DEAD means no POST can have reached Discord, DISABLED that none was
   made, and only alerts whose event grants delivery are ever posted. A settled answer is never misfiled:
   short of a recovery, a row out of flight is delivered, dead or uncertain exactly as its last POST says.
   */
  lemma StatusTellsLastPost(m: Machine, steps: seq<Step>, a: L.Alert)
    requires Initial(m) && m.maxAttempts >= 1
    ensures var n := Run(m, steps);
            var posts := Posts(n, a);
            && (posts != [] ==> a in n.rows && Grants(n.events, a.source))
            && (a in n.rows ==>
                var s := n.rows[a].status;
                && (s.Delivered? && !Began(m, a, Delivered) ==> posts != [] && posts[|posts| - 1].Confirmed?)
                && (s.Dead? ==> NoneArrived(posts))
                && (s.DisabledRow? ==> posts == [])
                && (posts != [] && posts[|posts| - 1].Confirmed? ==> s.Delivered? || s.Sending? || s.DeliveryUncertain?)
                && (posts != [] && Calm(steps) && !s.Sending? ==>
                      var last := posts[|posts| - 1];
                      && (s.Delivered? <==> last.Confirmed?)
                      && (s.DeliveryUncertain? <==> Ambiguous(last))
                      && (last.Refused? ==> s.Dead?) && (s.Dead? ==> last.Refused? || last.RateLimited?)))
  {
    var n := Run(m, steps);
    RunTold(m, steps);
    RunKeepsInv(Greatest(m.maxAttempts, steps), m, steps);
    assert RowTells(Calm(steps), m, n, a) && RowOk(Greatest(m.maxAttempts, steps), n, a);
    if a in m.rows && !m.rows[a].status.Pending? && !m.rows[a].status.Sending? {
      SettledNeverPosted(m, steps, a);
    }
  }

  /** Between a crash and the next completed recovery no task is at work and nothing is posted. */
  lemma {:induction false} NothingRunsUnrecovered(m: Machine, steps: seq<Step>)
    requires Initial(m)
    ensures !Run(m, steps).recovered ==> Run(m, steps).tasks == map[]
    ensures steps != [] ==>
              var before := Run(m, steps[..|steps| - 1]);
              forall a :: !before.recovered ==> Posts(Run(m, steps), a) == Posts(before, a)
  {
    if steps != [] {
      var before, s := Run(m, steps[..|steps| - 1]), steps[|steps| - 1];
      NothingRunsUnrecovered(m, steps[..|steps| - 1]);
      if !before.recovered {
        IdleStep(before, s);
      } else {
        StaysRecovered(before, s);
      }
      hide Next;
    }
  }

  lemma IdleStep(m: Machine, s: Step)
    requires m.tasks == map[] && !m.recovered
    ensures Next(m, s).tasks == map[] && forall a :: Posts(Next(m, s), a) == Posts(m, a)
  {
    hide Authorized, ClaimRow, Outcome, MarkRow, Recover, Interrupted, Fill, ListedAlerts;
  }

  lemma StaysRecovered(m: Machine, s: Step)
    requires m.recovered
    ensures Next(m, s).recovered || Next(m, s).tasks == map[]
  {
    hide Authorized, ClaimRow, Outcome, MarkRow, Recover, Interrupted, Fill, ListedAlerts;
  }

  /** A row settled before the run is never posted in it. */
  lemma {:induction false} SettledNeverPosted(m: Machine, steps: seq<Step>, a: L.Alert)
    requires Initial(m) && a in m.rows && !m.rows[a].status.Pending? && !m.rows[a].status.Sending?
    ensures var n := Run(m, steps);
            Posts(n, a) == [] && forall t :: t in n.tasks ==> !Holds(n.tasks[t], a)
  {
    if steps != [] {
      var before, s := Run(m, steps[..|steps| - 1]), steps[|steps| - 1];
      SettledNeverPosted(m, steps[..|steps| - 1], a);
      SettledRowsStay(m, steps[..|steps| - 1], a);
      OnlyHoldersPost(before, s, a);
      NobodyClaims(before, s, a);
      hide Next;
    }
  }

  lemma NobodyClaims(m: Machine, s: Step, a: L.Alert)
    requires a in m.rows && !m.rows[a].status.Pending?
    requires forall t :: t in m.tasks ==> !Holds(m.tasks[t], a)
    ensures forall t :: t in Next(m, s).tasks ==> !Holds(Next(m, s).tasks[t], a)
  {
    hide Authorized, ClaimRow, Outcome, MarkRow, Recover, Interrupted, Fill, ListedAlerts;
  }

  /** A delivered, uncertain, dead or disabled row is final: no step of any task or process changes it. */
  lemma {:induction false} SettledRowsStay(m: Machine, steps: seq<Step>, a: L.Alert)
    requires a in m.rows && !m.rows[a].status.Pending? && !m.rows[a].status.Sending?
    ensures a in Run(m, steps).rows && Run(m, steps).rows[a] == m.rows[a]
  {
    if steps != [] {
      SettledRowsStay(m, steps[..|steps| - 1], a);
      hide Next;
      SettledStep(Run(m, steps[..|steps| - 1]), steps[|steps| - 1], a);
    }
  }

  lemma SettledStep(m: Machine, s: Step, a: L.Alert)
    requires a in m.rows && !m.rows[a].status.Pending? && !m.rows[a].status.Sending?
    ensures a in Next(m, s).rows && Next(m, s).rows[a] == m.rows[a]
  {
    hide Prepared, Fill, Projected, Authorized, ListedAlerts, ClaimStep, MarkStep, RefuseStep, PostStep, StartStep, RecordStep;
    PreparedSettles(m.events, m.rows);
    match s
    case Restart(order, limit) =>
      if Recover(m.events, m.rows, order, limit).Some? {
        FillKeys(m.events, Prepared(m.events, m.rows), Projected(m.events, order).value, limit);
      }
    case InterruptedRestart(order, cut, limit) =>
      var alerts := Projected(m.events, order).GetOr([]);
      FillKeys(m.events, Prepared(m.events, m.rows), if cut <= |alerts| then alerts[..cut] else [], limit);
    case EnqueueAlert(source, index, limit) =>
      var alerts := ListedAlerts(m.events, source);
      FillKeys(m.events, m.rows, if index < |alerts| then [alerts[index]] else [], limit);
    case _ => SettledTaskStep(m, s, a);
  }

  lemma SettledTaskStep(m: Machine, s: Step, a: L.Alert)
    requires a in m.rows && !m.rows[a].status.Pending? && !m.rows[a].status.Sending?
    requires !s.Restart? && !s.InterruptedRestart? && !s.EnqueueAlert?
    ensures a in Next(m, s).rows && Next(m, s).rows[a] == m.rows[a]
  {
    hide ClaimRow, Outcome, RestartStep, EnqueueStep, Interrupted;
  }

  // ---------------------------------------------------------------- recovery at the end of any run

  /** Steps that only move a task leave the set of rows alone. */
  lemma TaskStepKeys(m: Machine, s: Step)
    requires !s.Restart? && !s.InterruptedRestart? && !s.EnqueueAlert? && !s.Record?
    ensures Next(m, s).rows.Keys == m.rows.Keys && Next(m, s).events == m.events
  {
    hide Authorized, ClaimRow, Outcome, RestartStep, EnqueueStep, RecordStep, Interrupted;
  }

  lemma StepGrounded(m: Machine, s: Step)
    requires Grounded(m.events, m.rows)
    ensures var n := Next(m, s); Grounded(n.events, n.rows)
  {
    hide Yields, Fill, Authorized, Projected, Prepared, L.AlertsFromDurable, Recover, Interrupted, ListedAlerts;
    hide ClaimStep, RefuseStep, PostStep, MarkStep, StartStep;
    match s
    case Restart(order, limit) =>
      if Recover(m.events, m.rows, order, limit).Some? {
        RecoverIsFill(m.events, m.rows, order, limit);
        var cut :| Recover(m.events, m.rows, order, limit).value.rows == Interrupted(m.events, m.rows, order, cut, limit);
        InterruptedGrounded(m.events, m.rows, order, cut, limit);
      }
    case InterruptedRestart(order, cut, limit) => InterruptedGrounded(m.events, m.rows, order, cut, limit);
    case EnqueueAlert(source, index, limit) =>
      var alerts := ListedAlerts(m.events, source);
      if index < |alerts| {
        ListedIsGrounded(m.events, source, alerts[index]);
        FillGrounded(m.events, m.rows, [alerts[index]], limit);
      } else {
        FillGrounded(m.events, m.rows, [], limit);
      }
    case Record(source, event) =>
      if source !in m.events {
        RecordGrounded(m.events, m.rows, source, event);
      }
    case _ => TaskStepKeys(m, s);
  }

  lemma {:induction false} RunGrounded(m: Machine, steps: seq<Step>)
    requires Grounded(m.events, m.rows)
    ensures var n := Run(m, steps); Grounded(n.events, n.rows)
  {
    if steps != [] {
      RunGrounded(m, steps[..|steps| - 1]);
      StepGrounded(Run(m, steps[..|steps| - 1]), steps[|steps| - 1]);
    }
  }

  /**
   After any run at all - events recorded but not yet enqueued, sends cut off mid-POST, recoveries that
   died part-way - a restart that completes leaves exactly the alerts of every source event in the
   outbox with none in flight, and restarting once more changes nothing.
   */
  lemma RestartAfterAnyRun(m: Machine, steps: seq<Step>, order: seq<L.EventId>, limit: nat)
    requires Grounded(m.events, m.rows)
    requires var n := Run(m, steps);
             Lists(n.events, order) && Recover(n.events, n.rows, order, limit).Some?
    ensures var n := Run(m, steps);
            var done := Next(n, Restart(order, limit));
            && done.recovered
            && (forall a :: a in done.rows <==> Yields(n.events, a))
            && (forall a :: a in done.rows ==> !done.rows[a].status.Sending?)
            && Next(done, Restart(order, limit)) == done
  {
    hide Yields, Fill, Projected, Prepared, Authorized, L.AlertsFromDurable;
    RunGrounded(m, steps);
    var n := Run(m, steps);
    RecoveryRestoresOutbox(n.events, n.rows, order, limit);
    SecondRecoveryChangesNothing(n.events, n.rows, order, order, limit);
  }

  // ---------------------------------------------------------------- one delivery call, uninterleaved

  /** The POSTs a delivery makes from attempt n on, where `answer(k)` is how the POST of attempt k ends. */
  function Attempts(answer: nat -> Answer, n: nat, maxAttempts: nat): seq<Answer>
    decreases if n < maxAttempts then maxAttempts - n else 0
  {
    if answer(n).RateLimited? && n < maxAttempts then [answer(n)] + Attempts(answer, n + 1, maxAttempts)
    else [answer(n)]
  }

  /** A delivery retries only rate limits, stops within the budget, and never leaves the row pending. */
  lemma {:induction false} AttemptsEndOnce(answer: nat -> Answer, n: nat, maxAttempts: nat)
    ensures var made := Attempts(answer, n, maxAttempts);
            && 1 <= |made|
            && (n <= maxAttempts ==> n + |made| - 1 <= maxAttempts)
            && OnlyLastMatters(made)
            && (forall i :: 0 <= i < |made| ==> made[i] == answer(n + i))
            && !Outcome(made[|made| - 1], n + |made| - 1, maxAttempts).Pending?
    decreases if n < maxAttempts then maxAttempts - n else 0
  {
    hide Attempts, OnlyLastMatters;
    AttemptsHead(answer, n, maxAttempts);
    if answer(n).RateLimited? && n < maxAttempts {
      hide Outcome;
      var rest := Attempts(answer, n + 1, maxAttempts);
      AttemptsEndOnce(answer, n + 1, maxAttempts);
      OneMoreLimited(answer(n), rest);
      OneMoreAnswer(answer, n, rest);
    } else {
      OneIsLast(answer(n));
    }
  }

  lemma OneIsLast(only: Answer)
    ensures OnlyLastMatters([only])
  {
  }

  lemma OneMoreAnswer(answer: nat -> Answer, n: nat, rest: seq<Answer>)
    requires forall i :: 0 <= i < |rest| ==> rest[i] == answer(n + 1 + i)
    ensures forall i :: 0 <= i < |[answer(n)] + rest| ==> ([answer(n)] + rest)[i] == answer(n + i)
  {
    var made := [answer(n)] + rest;
    forall i | 0 <= i < |made|
      ensures made[i] == answer(n + i)
    {
      if i > 0 {
        assert made[i] == rest[i - 1];
      }
    }
  }

  lemma OneMoreLimited(first: Answer, rest: seq<Answer>)
    requires first.RateLimited? && OnlyLastMatters(rest)
    ensures OnlyLastMatters([first] + rest)
  {
    var made := [first] + rest;
    forall i | 0 <= i < |made| - 1
      ensures made[i].RateLimited?
    {
      assert i > 0 ==> made[i] == rest[i - 1];
    }
  }

  /** The first attempt, and whether it is the only one. */
  lemma AttemptsHead(answer: nat -> Answer, n: nat, maxAttempts: nat)
    ensures Attempts(answer, n, maxAttempts) ==
            if answer(n).RateLimited? && n < maxAttempts then [answer(n)] + Attempts(answer, n + 1, maxAttempts) else [answer(n)]
  {
  }

  /** How a call reports the answer it stops at. */
  function ReplyTo(answer: Answer, attempts: nat): Reply {
    match answer
    case Confirmed => Reply("sent", attempts)
    case RateLimited => Reply("dead", attempts)
    case Refused => Reply("dead", attempts)
    case _ => Reply("uncertain", attempts)
  }

  /** The attempts still to come, if the loop goes on. */
  function Ahead(again: bool, answer: nat -> Answer, n: nat, maxAttempts: nat): seq<Answer> {
    if again then Attempts(answer, n, maxAttempts) else []
  }

  /** One more POST moves from the attempts ahead to those made. */
  lemma AheadStep(answer: nat -> Answer, n: nat, maxAttempts: nat, made: seq<Answer>)
    ensures made + Ahead(true, answer, n, maxAttempts) ==
            made + [answer(n)] + Ahead(answer(n).RateLimited? && n < maxAttempts, answer, n + 1, maxAttempts)
  {
  }

  lemma AheadEnds(answer: nat -> Answer, n: nat, maxAttempts: nat, made: seq<Answer>)
    ensures made + Ahead(false, answer, n, maxAttempts) == made
    ensures [] + Ahead(true, answer, n, maxAttempts) == Attempts(answer, n, maxAttempts)
  {
    hide Attempts;
  }

  // ---------------------------------------------------------------- one delivery call as machine steps

  /** The claim, POST and mark of each answer in turn, by task 0. */
  function Rounds(made: seq<Answer>): seq<Step> {
    if made == [] then [] else Rounds(made[..|made| - 1]) + [Claim(0), Post(0, made[|made| - 1]), Mark(0)]
  }

  /** Everything one delivery call does when its POSTs, if it gets to make them, end as listed. */
  function Delivery(a: L.Alert, payloadUsable: bool, made: seq<Answer>): seq<Step> {
    [Start(0, a)] + if payloadUsable then Rounds(made) else [Claim(0), RefusePayload(0)]
  }

  /** The machine at rest after exactly the POSTs `made` for a, its task going on only after a retried 429. */
  function AfterPosts(m: Machine, a: L.Alert, made: seq<Answer>): Machine
    requires a in m.rows && made != []
  {
    var n := m.rows[a].attempts + |made|;
    var row := Row(Outcome(made[|made| - 1], n, m.maxAttempts), n);
    m.(rows := m.rows[a := row], posts := m.posts[a := Posts(m, a) + made],
       tasks := if row.status.Pending? then map[0 := Claiming(a)] else map[])
  }

  lemma RunThree(m: Machine, steps: seq<Step>, x: Step, y: Step, z: Step)
    ensures Run(m, steps + [x, y, z])
         == Next(Next(Next(Run(m, steps), x), y), z)
  {
    hide Next;
    var all := steps + [x, y, z];
    assert all[..|all| - 1] == steps + [x, y] && (steps + [x, y])[..|steps| + 1] == steps + [x] && (steps + [x])[..|steps|] == steps;
    assert Run(m, steps + [x]) == Next(Run(m, steps), x);
    assert Run(m, steps + [x, y]) == Next(Run(m, steps + [x]), y);
  }

  lemma RunStart(m: Machine, a: L.Alert)
    requires m.recovered && m.tasks == map[]
    ensures Run(m, [Start(0, a)]) == m.(tasks := map[0 := Claiming(a)])
  {
    assert [Start(0, a)][..0] == [];
    assert Run(m, []) == m;
  }

  lemma GrantedClaim(m: Machine, a: L.Alert)
    requires m.tasks == map[0 := Claiming(a)] && Claimable(m.events, m.rows, a)
    ensures var n := m.rows[a].attempts + 1;
            ClaimStep(m, 0) == m.(rows := m.rows[a := Row(Sending, n)], tasks := map[0 := Holding(a, n)])
  {
    hide Authorized;
  }

  lemma GrantedPost(m: Machine, a: L.Alert, n: nat, answer: Answer)
    requires m.tasks == map[0 := Holding(a, n)]
    ensures PostStep(m, 0, answer)
         == m.(tasks := map[0 := Answered(a, n, answer)], posts := m.posts[a := Posts(m, a) + [answer]])
  {
  }

  lemma GrantedMark(m: Machine, a: L.Alert, n: nat, answer: Answer)
    requires m.tasks == map[0 := Answered(a, n, answer)] && a in m.rows && m.rows[a] == Row(Sending, n)
    ensures var status := Outcome(answer, n, m.maxAttempts);
            MarkStep(m, 0) ==
            m.(rows := m.rows[a := Row(status, n)], tasks := if status.Pending? then map[0 := Claiming(a)] else map[])
  {
    hide Outcome;
  }

  lemma RoundStep(m: Machine, a: L.Alert, answer: Answer)
    requires m.tasks == map[0 := Claiming(a)] && Claimable(m.events, m.rows, a)
    ensures Next(Next(Next(m, Claim(0)), Post(0, answer)), Mark(0))
         == AfterPosts(m, a, [answer])
  {
    hide Outcome, ClaimStep, PostStep, MarkStep, Authorized;
    var n := m.rows[a].attempts + 1;
    GrantedClaim(m, a);
    var claimed := ClaimStep(m, 0);
    GrantedPost(claimed, a, n, answer);
    var posted := PostStep(claimed, 0, answer);
    GrantedMark(posted, a, n, answer);
    assert Posts(claimed, a) == Posts(m, a);
    assert posted.rows[a := Row(Outcome(answer, n, m.maxAttempts), n)] == m.rows[a := Row(Outcome(answer, n, m.maxAttempts), n)];
  }

  lemma AfterMore(m: Machine, a: L.Alert, made: seq<Answer>, answer: Answer)
    requires a in m.rows && made != []
    ensures a in AfterPosts(m, a, made).rows
    ensures AfterPosts(AfterPosts(m, a, made), a, [answer])
         == AfterPosts(m, a, made + [answer])
  {
    hide Outcome;
    var once := AfterPosts(m, a, made);
    assert Posts(once, a) + [answer] == Posts(m, a) + (made + [answer]);
  }

  /** After a POST that is to be retried the task claims the same row again. */
  lemma AfterRetried(m: Machine, a: L.Alert, made: seq<Answer>)
    requires Claimable(m.events, m.rows, a) && made != []
    requires made[|made| - 1].RateLimited? && m.rows[a].attempts + |made| < m.maxAttempts
    ensures var n := AfterPosts(m, a, made);
            && n.tasks == map[0 := Claiming(a)] && Claimable(n.events, n.rows, a)
            && n.rows[a].attempts == m.rows[a].attempts + |made|
  {
    hide Authorized;
  }

  /** Claims, POSTs and marks of an authorised pending row leave exactly what the retry loop leaves. */
  lemma {:induction false} RoundsRun(m: Machine, a: L.Alert, made: seq<Answer>)
    requires m.recovered && m.tasks == map[] && made != [] && OnlyLastMatters(made)
    requires Claimable(m.events, m.rows, a)
    requires |made| > 1 ==> m.rows[a].attempts + |made| - 1 < m.maxAttempts
    ensures Run(m, [Start(0, a)] + Rounds(made)) == AfterPosts(m, a, made)
  {
    var front, last := made[..|made| - 1], made[|made| - 1];
    var before := [Start(0, a)] + Rounds(front);
    assert [Start(0, a)] + Rounds(made) == before + [Claim(0), Post(0, last), Mark(0)];
    hide Authorized, Next, Run, Rounds, AfterPosts, Claimable;
    RunThree(m, before, Claim(0), Post(0, last), Mark(0));
    if front == [] {
      RunStart(m, a);
      assert before == [Start(0, a)] && made == [last];
      FirstRound(m, a, last);
    } else {
      assert made[|front| - 1].RateLimited? && front[|front| - 1] == made[|front| - 1];
      assert front + [last] == made;
      RoundsRun(m, a, front);
      AfterRetried(m, a, front);
      AfterMore(m, a, front, last);
      RoundStep(AfterPosts(m, a, front), a, last);
    }
  }

  lemma FirstRound(m: Machine, a: L.Alert, answer: Answer)
    requires m.tasks == map[] && Claimable(m.events, m.rows, a)
    ensures var started := m.(tasks := map[0 := Claiming(a)]);
            Next(Next(Next(started, Claim(0)), Post(0, answer)), Mark(0)) == AfterPosts(m, a, [answer])
  {
    hide Authorized, Next, Outcome;
    RoundStep(m.(tasks := map[0 := Claiming(a)]), a, answer);
  }

  /** The row after a claim that is not granted. */
  function Unclaimed(events: Events, rows: Rows, a: L.Alert): Rows {
    if a in rows && rows[a].status.Pending? then rows[a := Disallowed(events, a, rows[a])] else rows
  }

  predicate Claimable(events: Events, rows: Rows, a: L.Alert) {
    a in rows && rows[a].status.Pending? && Authorized(events, a.source)
  }

  lemma {:induction false} IdleRun(m: Machine, a: L.Alert, made: seq<Answer>)
    requires m.recovered && m.tasks == map[] && made != [] && !Claimable(m.events, m.rows, a)
    ensures Run(m, [Start(0, a)] + Rounds(made)) == m.(rows := Unclaimed(m.events, m.rows, a))
  {
    hide Authorized, StartStep, RefuseStep, RestartStep, EnqueueStep, RecordStep, Interrupted, Unclaimed, Run;
    var front, last := made[..|made| - 1], made[|made| - 1];
    var before := [Start(0, a)] + Rounds(front);
    assert [Start(0, a)] + Rounds(made) == before + [Claim(0), Post(0, last), Mark(0)];
    RunThree(m, before, Claim(0), Post(0, last), Mark(0));
    RunStart(m, a);
    if front == [] {
      assert before == [Start(0, a)];
      IdleRound(m, a, last);
    } else {
      IdleRun(m, a, front);
    }
  }

  lemma IdleRound(m: Machine, a: L.Alert, answer: Answer)
    requires m.tasks == map[] && !Claimable(m.events, m.rows, a)
    ensures var started := m.(tasks := map[0 := Claiming(a)]);
            var claimed := Next(started, Claim(0));
            && claimed == m.(rows := Unclaimed(m.events, m.rows, a))
            && Next(Next(claimed, Post(0, answer)), Mark(0)) == claimed
            && Next(claimed, RefusePayload(0)) == claimed
  {
    hide Authorized, StartStep, RestartStep, EnqueueStep, RecordStep, Interrupted, Outcome;
  }

  lemma RefusedRun(m: Machine, a: L.Alert)
    requires m.recovered && m.tasks == map[]
    ensures Run(m, [Start(0, a), Claim(0), RefusePayload(0)])
         == m.(rows := if Claimable(m.events, m.rows, a) then m.rows[a := Row(Dead, m.rows[a].attempts + 1)]
                       else Unclaimed(m.events, m.rows, a))
  {
    var started := m.(tasks := map[0 := Claiming(a)]);
    RunRefused(m, a);
    hide Run, Authorized, Next, Unclaimed, ClaimStep, RefuseStep;
    if Claimable(m.events, m.rows, a) {
      var n := m.rows[a].attempts + 1;
      GrantedClaim(started, a);
      GrantedRefuse(ClaimStep(started, 0), a, n);
      assert m.rows[a := Row(Sending, n)][a := Row(Dead, n)] == m.rows[a := Row(Dead, n)];
      assert RefuseStep(ClaimStep(started, 0), 0) == m.(rows := m.rows[a := Row(Dead, n)]);
    } else {
      IdleRefusal(m, a);
    }
  }

  lemma RunRefused(m: Machine, a: L.Alert)
    requires m.recovered && m.tasks == map[]
    ensures Run(m, [Start(0, a), Claim(0), RefusePayload(0)]) == RefuseStep(ClaimStep(m.(tasks := map[0 := Claiming(a)]), 0), 0)
  {
    hide ClaimStep, RefuseStep;
    assert [] + [Start(0, a), Claim(0), RefusePayload(0)] == [Start(0, a), Claim(0), RefusePayload(0)];
    RunThree(m, [], Start(0, a), Claim(0), RefusePayload(0));
    assert Run(m, []) == m;
    assert StartStep(m, 0, a) == m.(tasks := map[0 := Claiming(a)]);
  }

  lemma GrantedRefuse(m: Machine, a: L.Alert, n: nat)
    requires m.tasks == map[0 := Holding(a, n)] && a in m.rows && m.rows[a] == Row(Sending, n)
    ensures RefuseStep(m, 0) == m.(rows := m.rows[a := Row(Dead, n)], tasks := map[])
  {
  }

  lemma IdleRefusal(m: Machine, a: L.Alert)
    requires m.tasks == map[] && !Claimable(m.events, m.rows, a)
    ensures RefuseStep(ClaimStep(m.(tasks := map[0 := Claiming(a)]), 0), 0) == m.(rows := Unclaimed(m.events, m.rows, a))
  {
    IdleRound(m, a, Confirmed);
    hide ClaimStep, Unclaimed, Authorized;
  }

  /** What one delivery call leaves, row and POSTs. */
  function DeliveredState(m: Machine, a: L.Alert, payloadUsable: bool, made: seq<Answer>): Machine
    requires made != []
  {
    if !Claimable(m.events, m.rows, a) then m.(rows := Unclaimed(m.events, m.rows, a))
    else if !payloadUsable then m.(rows := m.rows[a := Row(Dead, m.rows[a].attempts + 1)])
    else AfterPosts(m, a, made)
  }

  /** The attempts a delivery of this alert would make. */
  function AttemptsFor(m: Machine, a: L.Alert, answer: nat -> Answer): seq<Answer> {
    Attempts(answer, (if a in m.rows then m.rows[a].attempts else 0) + 1, m.maxAttempts)
  }

  /** One delivery call is a run of the machine that all the theorems about POSTs are about. */
  lemma DeliveryIsRun(m: Machine, a: L.Alert, payloadUsable: bool, answer: nat -> Answer)
    requires m.recovered && m.tasks == map[]
    ensures var made := AttemptsFor(m, a, answer);
            && made != []
            && Run(m, Delivery(a, payloadUsable, made)) == DeliveredState(m, a, payloadUsable, made)
            && DeliveredState(m, a, payloadUsable, made).tasks == map[]
  {
    hide Authorized, Next, Run, Unclaimed, Rounds, Attempts, AfterPosts;
    var made := AttemptsFor(m, a, answer);
    AttemptsHead(answer, (if a in m.rows then m.rows[a].attempts else 0) + 1, m.maxAttempts);
    if !payloadUsable {
      assert [Start(0, a)] + [Claim(0), RefusePayload(0)] == [Start(0, a), Claim(0), RefusePayload(0)];
      RefusedRun(m, a);
    } else if Claimable(m.events, m.rows, a) {
      PostingRun(m, a, answer);
    } else {
      IdleRun(m, a, made);
    }
  }

  /** The status of the row and the word of the reply after a delivery, by how its last POST ended. */
  ghost predicate Concludes(last: Answer, spent: bool, status: Status, word: string) {
    && (status.Delivered? <==> last.Confirmed?) && (word == "sent" <==> last.Confirmed?)
    && (status.DeliveryUncertain? <==> Ambiguous(last)) && (word == "uncertain" <==> Ambiguous(last))
    && (status.Dead? <==> last.Refused? || (last.RateLimited? && spent))
    && (word == "dead" <==> last.Refused? || (last.RateLimited? && spent))
    && (status.Delivered? || status.DeliveryUncertain? || status.Dead?)
  }

  /** The word for a row the call found, or left, without a POST of its own. */
  ghost predicate NamesStatus(status: Status, word: string) {
    && (word == "pending" <==> status.Pending?) && (word == "in_flight" <==> status.Sending?)
    && (word == "duplicate" <==> status.Delivered?) && (word == "uncertain" <==> status.DeliveryUncertain?)
    && (word == "dead" <==> status.Dead?) && (word == "disabled" <==> status.DisabledRow?)
  }

  lemma OutcomeConcludes(last: Answer, attempts: nat, maxAttempts: nat)
    requires last.RateLimited? ==> attempts >= maxAttempts
    ensures ReplyTo(last, attempts).Reply? && ReplyTo(last, attempts).attempts == attempts
    ensures Concludes(last, attempts >= maxAttempts, Outcome(last, attempts, maxAttempts), ReplyTo(last, attempts).word)
  {
    Words();
  }

  /** The reply words differ from one another. */
  lemma Words()
    ensures "sent"[0] == 's' && "uncertain"[0] == 'u' && "dead"[0] == 'd' && "pending"[0] == 'p' && "in_flight"[0] == 'i'
    ensures |"dead"| == 4 && |"duplicate"| == 9 && |"disabled"| == 8
  {
  }

  lemma StatusIsNamed(rows: Rows, a: L.Alert, fallback: string)
    requires a in rows
    ensures var reply := CurrentReply(rows, a, fallback);
            reply.Reply? && NamesStatus(rows[a].status, reply.word) && reply.attempts == rows[a].attempts
  {
    Words();
  }

  /** Nothing but the row and the POSTs of alert a is different. */
  ghost predicate OnlyTouches(m: Machine, a: L.Alert, n: Machine) {
    && n.events == m.events && n.recovered == m.recovered && n.maxAttempts == m.maxAttempts && n.rows.Keys == m.rows.Keys
    && (forall b :: b in m.rows && b != a ==> n.rows[b] == m.rows[b])
    && (forall b :: b != a ==> Posts(n, b) == Posts(m, b))
  }

  /** What one delivery did and answered, said without naming how a step marks a row. */
  ghost predicate DeliveredAs(m: Machine, a: L.Alert, payloadUsable: bool, made: seq<Answer>, n: Machine, reply: Reply)
    requires made != []
  {
    && OnlyTouches(m, a, n) && reply.Reply?
    && reply.attempts == (if a in n.rows then n.rows[a].attempts else 0)
    && if a !in m.rows then n.posts == m.posts && reply.word == "missing"
       else
         var was, row, last := m.rows[a], n.rows[a], made[|made| - 1];
         if !was.status.Pending? then
           n.posts == m.posts && row == was && NamesStatus(row.status, reply.word)
         else if !Grants(m.events, a.source) then
           && n.posts == m.posts && row.attempts == was.attempts && NamesStatus(row.status, reply.word)
           && row.status == if a.source in m.events && !m.events[a.source].body.Unreadable? then DisabledRow else Dead
         else if !payloadUsable then
           n.posts == m.posts && row == Row(Dead, was.attempts + 1) && reply.word == "dead"
         else
           && Posts(n, a) == Posts(m, a) + made && row.attempts == was.attempts + |made|
           && Concludes(last, row.attempts >= m.maxAttempts, row.status, reply.word)
  }

  /** The answer of a delivery: its own POST's, or the row as it stands. */
  function DeliveryReply(m: Machine, a: L.Alert, payloadUsable: bool, made: seq<Answer>, rows: Rows): Reply
    requires made != []
  {
    if payloadUsable && Claimable(m.events, m.rows, a) then ReplyTo(made[|made| - 1], m.rows[a].attempts + |made|)
    else CurrentReply(rows, a, "missing")
  }

  /**
   One delivery call, by its answers alone: it retries only rate limits, within the budget; the row ends
   DELIVERED exactly after a confirmed POST, UNCERTAIN exactly after an ambiguous one, DEAD exactly after a
   refused one, a spent budget or a bad payload; the reply says which; and no other alert is touched.
   */
  lemma DeliveryConcludes(m: Machine, a: L.Alert, payloadUsable: bool, answer: nat -> Answer)
    requires m.recovered && m.tasks == map[]
    ensures var made := AttemptsFor(m, a, answer);
            && made != [] && OnlyLastMatters(made)
            && (forall i :: 0 <= i < |made| ==> made[i] == answer((if a in m.rows then m.rows[a].attempts else 0) + 1 + i))
            && var n := Run(m, Delivery(a, payloadUsable, made));
               DeliveredAs(m, a, payloadUsable, made, n, DeliveryReply(m, a, payloadUsable, made, n.rows))
  {
    hide Run, Next, Delivery, Attempts, Claimable, DeliveredState, OnlyLastMatters, DeliveredAs, Outcome, DeliveryReply;
    var made := AttemptsFor(m, a, answer);
    var tried := (if a in m.rows then m.rows[a].attempts else 0) + 1;
    AttemptsEndOnce(answer, tried, m.maxAttempts);
    DeliveryIsRun(m, a, payloadUsable, answer);
    EndIsSpent(made[|made| - 1], tried + |made| - 1, m.maxAttempts);
    StateConcludes(m, a, payloadUsable, made);
  }

  lemma EndIsSpent(last: Answer, attempts: nat, maxAttempts: nat)
    requires !Outcome(last, attempts, maxAttempts).Pending?
    ensures last.RateLimited? ==> attempts >= maxAttempts
  {
  }

  lemma StateConcludes(m: Machine, a: L.Alert, payloadUsable: bool, made: seq<Answer>)
    requires made != []
    requires made[|made| - 1].RateLimited? ==> (if a in m.rows then m.rows[a].attempts else 0) + |made| >= m.maxAttempts
    ensures var n := DeliveredState(m, a, payloadUsable, made);
            DeliveredAs(m, a, payloadUsable, made, n, DeliveryReply(m, a, payloadUsable, made, n.rows))
  {
    AuthorizedIsGrant(m.events, a.source);
    hide Authorized, Grants;
    if payloadUsable && Claimable(m.events, m.rows, a) {
      OutcomeConcludes(made[|made| - 1], m.rows[a].attempts + |made|, m.maxAttempts);
      hide Outcome, ReplyTo, Concludes;
    } else if a in m.rows {
      StatusIsNamed(DeliveredState(m, a, payloadUsable, made).rows, a, "missing");
    }
  }

  lemma PostingRun(m: Machine, a: L.Alert, answer: nat -> Answer)
    requires m.recovered && m.tasks == map[] && Claimable(m.events, m.rows, a)
    ensures var made := AttemptsFor(m, a, answer);
            && made != [] && Run(m, [Start(0, a)] + Rounds(made)) == AfterPosts(m, a, made) && AfterPosts(m, a, made).tasks == map[]
  {
    var n, made := m.rows[a].attempts + 1, AttemptsFor(m, a, answer);
    AttemptsEndOnce(answer, n, m.maxAttempts);
    AttemptsHead(answer, n, m.maxAttempts);
    NoTaskLeft(m, a, made);
    hide Authorized, Next, Run, Rounds, Attempts, AfterPosts, OnlyLastMatters, Outcome, Claimable;
    assert |made| > 1 ==> n < m.maxAttempts;
    RoundsRun(m, a, made);
  }

  lemma NoTaskLeft(m: Machine, a: L.Alert, made: seq<Answer>)
    requires a in m.rows && made != [] && !Outcome(made[|made| - 1], m.rows[a].attempts + |made|, m.maxAttempts).Pending?
    ensures AfterPosts(m, a, made).tasks == map[]
  {
    hide Outcome;
  }

  /**
   The bound is the greatest setting, not the present one: here one POST was rate-limited under a setting
   of two, and the process that follows, with a setting of one, makes a second.
   */
  lemma LoweredSettingIsExceeded(m: Machine, a: L.Alert, answer: Answer)
    requires m.tasks == map[] && m.posts == map[] && m.recovered && m.maxAttempts == 2
    requires Claimable(m.events, m.rows, a) && m.rows[a].attempts == 0
    ensures var steps := [Start(0, a)] + Rounds([RateLimited]) + [Crash(1), Restart([], 0)] + [Start(0, a), Claim(0), Post(0, answer)];
            Run(m, steps).maxAttempts == 1 && |Posts(Run(m, steps), a)| == 2
  {
    var first := [Start(0, a)] + Rounds([RateLimited]);
    RoundsRun(m, a, [RateLimited]);
    AfterRetried(m, a, [RateLimited]);
    var one := AfterPosts(m, a, [RateLimited]);
    assert Posts(one, a) == [RateLimited];
    hide AfterPosts, Rounds, Next, Authorized;
    var second := first + [Crash(1), Restart([], 0)];
    assert second[..|first| + 1] == first + [Crash(1)] && (first + [Crash(1)])[..|first|] == first;
    assert Run(m, first + [Crash(1)]) == Next(one, Crash(1));
    assert Run(m, second) == Next(Next(one, Crash(1)), Restart([], 0));
    RunThree(m, second, Start(0, a), Claim(0), Post(0, answer));
    hide Run;
    LoweredRestart(one, a);
    PostsOnceMore(Next(Next(one, Crash(1)), Restart([], 0)), a, answer);
  }

  lemma LoweredRestart(one: Machine, a: L.Alert)
    requires Claimable(one.events, one.rows, a)
    ensures var two := Next(Next(one, Crash(1)), Restart([], 0));
            && two.tasks == map[] && two.recovered && two.maxAttempts == 1 && two.events == one.events && two.posts == one.posts
            && Claimable(two.events, two.rows, a)
  {
    hide Authorized, ClaimStep, MarkStep, PostStep, RefuseStep, StartStep, EnqueueStep, RecordStep, Interrupted;
    EmptyRecovery(one.events, one.rows, a);
    hide Recover;
  }

  lemma PostsOnceMore(two: Machine, a: L.Alert, answer: Answer)
    requires two.tasks == map[] && two.recovered && Claimable(two.events, two.rows, a)
    ensures var three := Next(Next(Next(two, Start(0, a)), Claim(0)), Post(0, answer));
            three.maxAttempts == two.maxAttempts && Posts(three, a) == Posts(two, a) + [answer]
  {
    hide Authorized, MarkStep, RefuseStep, RestartStep, EnqueueStep, RecordStep, Interrupted;
    var started := StartStep(two, 0, a);
    assert started == two.(tasks := map[0 := Claiming(a)]);
    GrantedClaim(started, a);
    hide ClaimStep;
    GrantedPost(ClaimStep(started, 0), a, two.rows[a].attempts + 1, answer);
    hide PostStep;
  }

  lemma EmptyRecovery(events: Events, rows: Rows, a: L.Alert)
    requires Claimable(events, rows, a)
    ensures var r := Recover(events, rows, [], 0);
            r.Some? && a in r.value.rows && r.value.rows[a] == rows[a]
  {
    hide Authorized;
    assert Projected(events, []) == Some([]);
    assert Fill(events, Prepared(events, rows), [], 0) == Filled(Prepared(events, rows), 0, true);
  }

  // ---------------------------------------------------------------- the notifier as it runs

  /** What a delivery call answers: an exception before startup recovery, or a status word and attempt count. */
  datatype Reply = NotRecovered | Reply(word: string, attempts: nat)

  function StatusWord(s: Status): string {
    match s
    case Pending => "pending"
    case Sending => "in_flight"
    case Delivered => "duplicate"
    case DeliveryUncertain => "uncertain"
    case Dead => "dead"
    case DisabledRow => "disabled"
  }

  function CurrentReply(rows: Rows, a: L.Alert, fallback: string): Reply {
    if a in rows then Reply(StatusWord(rows[a].status), rows[a].attempts) else Reply(fallback, 0)
  }

  class GuardianDiscordNotifier {
    const maxAttempts: nat
    const enabled: bool
    const events: Events
    var rows: Rows
    var posts: map<L.Alert, seq<Answer>>
    var recovered: bool

    constructor (maxAttempts: nat, enabled: bool, events: Events, rows: Rows)
      ensures this.maxAttempts == maxAttempts && this.enabled == enabled
      ensures State() == Machine(events, rows, map[], false, map[], maxAttempts)
    {
      this.maxAttempts, this.enabled, this.events := maxAttempts, enabled, events;
      this.rows, this.posts, this.recovered := rows, map[], false;
    }

    /** The machine between calls: no task is at work. */
    ghost function State(): Machine
      reads this
    {
      Machine(events, rows, map[], recovered, posts, maxAttempts)
    }

    /** Since `before`, exactly the POSTs `made` happened, all for alert a, and the row shows the last. */
    ghost predicate Sent(before: Machine, a: L.Alert, made: seq<Answer>)
      requires a in before.rows && made != []
      reads this
    {
      var after := AfterPosts(before, a, made);
      before.events == events && before.maxAttempts == maxAttempts && rows == after.rows && posts == after.posts && recovered == before.recovered
    }

    /** One claim, POST and mark; answers whether the loop goes round again. */
    method Attempt(a: L.Alert, payloadUsable: bool, answer: nat -> Answer) returns (again: bool, reply: Reply)
      requires recovered
      modifies this`rows, this`posts
      ensures var m := old(State());
              if !Claimable(events, m.rows, a) then
                && !again && rows == Unclaimed(events, m.rows, a) && posts == m.posts
                && reply == CurrentReply(rows, a, "missing")
              else
                var n := m.rows[a].attempts + 1;
                if !payloadUsable then
                  && !again && rows == m.rows[a := Row(Dead, n)] && posts == m.posts && reply == Reply("dead", n)
                else
                  && again == (answer(n).RateLimited? && n < maxAttempts)
                  && Sent(m, a, [answer(n)])
                  && (!again ==> reply == ReplyTo(answer(n), n) && Concludes(answer(n), n >= maxAttempts, rows[a].status, reply.word))
    {
      if a !in rows || !rows[a].status.Pending? {
        return false, CurrentReply(rows, a, "missing");
      }
      var claimed := ClaimRow(events, a, rows[a]);
      rows := rows[a := claimed];
      if !claimed.status.Sending? {
        return false, CurrentReply(rows, a, "missing");
      }
      if !payloadUsable {
        rows := rows[a := claimed.(status := Dead)];
        return false, Reply("dead", claimed.attempts);
      }
      var answered := answer(claimed.attempts);
      posts := posts[a := (if a in posts then posts[a] else []) + [answered]];
      rows := rows[a := claimed.(status := Outcome(answered, claimed.attempts, maxAttempts))];
      again := answered.RateLimited? && claimed.attempts < maxAttempts;
      reply := ReplyTo(answered, claimed.attempts);
      if !again {
        OutcomeConcludes(answered, claimed.attempts, maxAttempts);
      }
    }

    /**
     The retry loop. It runs the machine's own steps for this alert, so every theorem about runs is about
     it: the POSTs it makes are those of `Attempts`, the row and the reply both tell how the last one ended.
     */
    method DeliverAlert(a: L.Alert, payloadUsable: bool, answer: nat -> Answer) returns (reply: Reply)
      modifies this`rows, this`posts
      ensures !old(recovered) || !enabled ==> State() == old(State())
      ensures !old(recovered) ==> reply == NotRecovered
      ensures old(recovered) && !enabled ==> reply.Reply?
      ensures old(recovered) && !enabled && a in rows ==> NamesStatus(rows[a].status, reply.word) && reply.attempts == rows[a].attempts
      ensures old(recovered) && !enabled && a !in rows ==> reply == Reply("disabled", 0)
      ensures old(recovered) && enabled ==>
                var made := AttemptsFor(old(State()), a, answer);
                && made != []
                && State() == Run(old(State()), Delivery(a, payloadUsable, made))
                && DeliveredAs(old(State()), a, payloadUsable, made, State(), reply)
    {
      if !recovered {
        return NotRecovered;
      }
      if !enabled {
        if a in rows {
          StatusIsNamed(rows, a, "disabled");
        }
        return CurrentReply(rows, a, "disabled");
      }
      hide Run, Delivery, DeliveredState, DeliveredAs, Attempts;
      DeliveryIsRun(State(), a, payloadUsable, answer);
      DeliveryConcludes(State(), a, payloadUsable, answer);
      reply := Deliver(a, payloadUsable, answer);
    }

    /** The loop itself, once startup recovery has run and the transport is enabled. */
    method Deliver(a: L.Alert, payloadUsable: bool, answer: nat -> Answer) returns (reply: Reply)
      requires recovered
      requires var made := AttemptsFor(State(), a, answer);
               made != [] && DeliveredState(State(), a, payloadUsable, made).tasks == map[]
      modifies this`rows, this`posts
      ensures var made := AttemptsFor(old(State()), a, answer);
              && made != [] && State() == DeliveredState(old(State()), a, payloadUsable, made)
              && reply == DeliveryReply(old(State()), a, payloadUsable, made, rows)
    {
      hide Run, Authorized, Disallowed, Sent, AfterPosts, Attempts, DeliveredState;
      ghost var before := State();
      AttemptsHead(answer, (if a in rows then rows[a].attempts else 0) + 1, maxAttempts);
      var again;
      again, reply := Attempt(a, payloadUsable, answer);
      if again {
        reply := Retry(before, a, answer);
      }
      Settled(before, a, payloadUsable, answer);
    }

    /** The later rounds of the loop, after a first POST that is to be retried. */
    method Retry(ghost before: Machine, a: L.Alert, answer: nat -> Answer) returns (reply: Reply)
      requires recovered && before.maxAttempts == maxAttempts && a in before.rows && Claimable(events, before.rows, a)
      requires var n := before.rows[a].attempts + 1;
               Sent(before, a, [answer(n)]) && answer(n).RateLimited? && n < maxAttempts
      modifies this`rows, this`posts
      ensures var made := AttemptsFor(before, a, answer);
              && made != [] && Sent(before, a, made)
              && reply == ReplyTo(made[|made| - 1], before.rows[a].attempts + |made|)
    {
      hide Authorized, Disallowed, Sent, AfterPosts, Attempts, Ahead, Claimable, ReplyTo, Outcome;
      ghost var first := before.rows[a].attempts + 1;
      ghost var made := [answer(first)];
      ghost var all := Attempts(answer, first, maxAttempts);
      AheadEnds(answer, first, maxAttempts, []);
      AheadStep(answer, first, maxAttempts, []);
      assert [] + [answer(first)] == made;
      var again := true;
      reply := NotRecovered;
      while again
        invariant made != [] && Sent(before, a, made)
        invariant again ==> made[|made| - 1].RateLimited? && first + |made| - 1 < maxAttempts
        invariant all == made + Ahead(again, answer, first + |made|, maxAttempts)
        invariant !again ==> reply == ReplyTo(made[|made| - 1], first + |made| - 1)
        decreases maxAttempts - first - |made|, again
      {
        AheadStep(answer, first + |made|, maxAttempts, made);
        again, reply := AttemptAgain(before, a, answer, made);
        made := made + [answer(first + |made|)];
      }
      AheadEnds(answer, first + |made|, maxAttempts, made);
    }

    /** A later round of the retry loop, after `made` earlier POSTs of this delivery. */
    method AttemptAgain(ghost before: Machine, a: L.Alert, answer: nat -> Answer, ghost made: seq<Answer>)
      returns (again: bool, reply: Reply)
      requires recovered && before.maxAttempts == maxAttempts && a in before.rows && Claimable(events, before.rows, a) && made != [] && Sent(before, a, made)
      requires made[|made| - 1].RateLimited? && before.rows[a].attempts + |made| < maxAttempts
      modifies this`rows, this`posts
      ensures var n := before.rows[a].attempts + |made| + 1;
              && Sent(before, a, made + [answer(n)])
              && again == (answer(n).RateLimited? && n < maxAttempts)
              && (!again ==> reply == ReplyTo(answer(n), n))
    {
      AfterRetried(before, a, made);
      AfterMore(before, a, made, answer(before.rows[a].attempts + |made| + 1));
      hide Authorized, Disallowed, Outcome, ReplyTo, Claimable;
      again, reply := Attempt(a, true, answer);
    }

    /** The cases of a delivery put together. */
    lemma Settled(before: Machine, a: L.Alert, payloadUsable: bool, answer: nat -> Answer)
      requires before.events == events && before.recovered == recovered && before.tasks == map[] && before.maxAttempts == maxAttempts
      requires var made := AttemptsFor(before, a, answer);
               && made != []
               && DeliveredState(before, a, payloadUsable, made).tasks == map[]
               && if !Claimable(events, before.rows, a) then rows == Unclaimed(events, before.rows, a) && posts == before.posts
                  else if !payloadUsable then
                    rows == before.rows[a := Row(Dead, before.rows[a].attempts + 1)] && posts == before.posts
                  else Sent(before, a, made)
      ensures State() == DeliveredState(before, a, payloadUsable, AttemptsFor(before, a, answer))
    {
      hide Attempts, Authorized, Outcome, Unclaimed;
    }

    /** Startup recovery; dispatch is allowed from then on if it completed. */
    method RecoverStartup(order: seq<L.EventId>, limit: nat) returns (report: Option<Report>)
      modifies this`rows, this`recovered
      ensures report.Some? ==> State() == Next(old(State()), Restart(order, limit))
      ensures report.Some? <==> Recover(events, old(rows), order, limit).Some?
      ensures report.Some? ==> report == ReportOf(events, old(rows), order, limit)
      ensures report.None? ==> recovered == old(recovered)
      ensures exists k: nat, cut: nat :: StoppedAt(events, old(rows), order, k, cut, limit, rows)
    {
      hide Recover, Interrupted, Projected;
      rows, report := RecoverAlerts(events, rows, order, limit);
      if report.Some? {
        recovered := true;
      }
    }
  }
}
