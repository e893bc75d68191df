/** The Guardian's durable closed-candle cursor of one protection-context stream. */
module ContextCursor {
  import opened Prelude

  datatype Cursor = Cursor(close: int, contextId: string)

  /** The received context, reduced to what validation looks at. */
  datatype Context = Context(majorVersion: Option<nat>, closedCandle: bool, wellFormed: bool, market: string, symbol: string,
                             interval: string, close: int, contextId: string, freshness: nat)

  datatype Rejection =
    | UnsupportedVersion | NotClosedCandle | Malformed | MarketMismatch | SymbolMismatch | IntervalMismatch
    | FutureCursor | StaleContext | CursorUncertain | CursorInvalid | CursorRegression | CursorConflict

  /** One planning call on the stream; the two flags are failures outside the cursor protocol. */
  datatype Request = Request(context: Context, market: string, symbol: string, interval: string, now: int, maxAge: int,
                             snapshotRejected: bool, observedAt: int, intentFails: bool)

  const SUPPORTED_MAJOR := 1

  /** How far the stored cursor row can be relied on; this code writes only certain rows. */
  datatype Trust = Certain | Uncertain | Unparsable

  function Validate(req: Request, previous: Option<Cursor>, trust: Trust): Option<Rejection> {
    var c := req.context;
    if c.majorVersion != Some(SUPPORTED_MAJOR) then Some(UnsupportedVersion)
    else if !c.closedCandle then Some(NotClosedCandle)
    else if !c.wellFormed || c.close < 0 || Blank(c.contextId) then Some(Malformed)
    else if c.market != req.market then Some(MarketMismatch)
    else if c.symbol != req.symbol then Some(SymbolMismatch)
    else if c.interval != req.interval then Some(IntervalMismatch)
    else if c.close >= req.now then Some(FutureCursor)
    else if req.now - c.close > req.maxAge || c.freshness > req.maxAge then Some(StaleContext)
    else if previous.Some? && trust.Unparsable? then Some(CursorInvalid)
    else if previous.Some? && c.close < previous.value.close then Some(CursorRegression)
    else if previous.Some? && c.close == previous.value.close && c.contextId != previous.value.contextId then Some(CursorConflict)
    else None
  }

  /** The stream's cursor row, and the recorded cursor events by the context id they are derived from. */
  datatype Stream = Stream(cursor: Option<Cursor>, events: map<string, int>, trust: Trust)

  const EMPTY_STREAM := Stream(None, map[], Certain)

  datatype Outcome = SnapshotRejected | ContextRejected(reason: Rejection) | Raised | Recorded(inserted: bool)

  function Plan(s: Stream, req: Request): (Stream, Outcome) {
    if req.snapshotRejected then (s, SnapshotRejected)
    else if s.cursor.Some? && s.trust.Uncertain? then (s, ContextRejected(CursorUncertain))
    else
      var rejection := Validate(req, s.cursor, s.trust);
      if rejection.Some? then (s, ContextRejected(rejection.value))
      else if req.observedAt != req.context.close then (s, SnapshotRejected)
      else if req.intentFails then (s, Raised)
      else
        var id, close := req.context.contextId, req.context.close;
        if id in s.events then if s.events[id] == close then (s, Recorded(false)) else (s, Raised)
        else (Stream(Some(Cursor(close, id)), s.events[id := close], Certain), Recorded(true))
  }

  /** A planning call, or a writer outside this code putting the stored row in doubt. */
  datatype Op = Call(req: Request) | Doubt(unparsable: bool)

  function Next(s: Stream, op: Op): Stream {
    match op
    case Call(req) => Plan(s, req).0
    case Doubt(unparsable) => if s.cursor.None? then s else s.(trust := if unparsable then Unparsable else Uncertain)
  }

  function Run(ops: seq<Op>): Stream {
    if ops == [] then EMPTY_STREAM else Next(Run(ops[..|ops| - 1]), ops[|ops| - 1])
  }

  predicate Accepts(s: Stream, op: Op) { op.Call? && Plan(s, op.req).1.Recorded? }

  /** Every accepted context of the run, in order, replays included. */
  function Accepted(ops: seq<Op>): seq<Cursor> {
    if ops == [] then []
    else
      var before, last := ops[..|ops| - 1], ops[|ops| - 1];
      if Accepts(Run(before), last) then Accepted(before) + [Cursor(last.req.context.close, last.req.context.contextId)]
      else Accepted(before)
  }

  ghost predicate Monotone(log: seq<Cursor>) {
    forall i, j :: 0 <= i < j < |log| ==> log[i].close <= log[j].close
  }

  /** Close times and context ids determine each other over the whole log. */
  ghost predicate Bijective(log: seq<Cursor>) {
    forall i, j :: 0 <= i < j < |log| ==> (log[i].close == log[j].close <==> log[i].contextId == log[j].contextId)
  }

  /** The stored row is the last accepted context and the events are exactly the accepted ones. */
  ghost predicate Stands(s: Stream, log: seq<Cursor>) {
    && s.cursor == (if log == [] then None else Some(log[|log| - 1]))
    && (forall i :: 0 <= i < |log| ==> log[i].contextId in s.events && s.events[log[i].contextId] == log[i].close)
    && (forall id :: id in s.events ==> Cursor(s.events[id], id) in log)
  }

  /** A validated context is newer than the cursor, or the same context again. */
  lemma ValidatedAdvances(req: Request, previous: Cursor, trust: Trust)
    requires Validate(req, Some(previous), trust).None?
    ensures previous.close < req.context.close || previous == Cursor(req.context.close, req.context.contextId)
  {
  }

  lemma ExtendLog(log: seq<Cursor>, c: Cursor)
    requires Monotone(log) && Bijective(log)
    requires log != [] ==> log[|log| - 1] == c || log[|log| - 1].close < c.close
    requires log != [] && log[|log| - 1] != c ==> forall i :: 0 <= i < |log| ==> log[i].contextId != c.contextId
    ensures Monotone(log + [c]) && Bijective(log + [c])
  {
    if log != [] {
      var last := |log| - 1;
      assert forall i :: 0 <= i < last ==> log[i].close <= log[last].close;
      assert forall i :: 0 <= i < last ==> (log[i].close == log[last].close <==> log[i].contextId == log[last].contextId);
    }
  }

  lemma AcceptKeeps(s: Stream, log: seq<Cursor>, req: Request)
    requires Stands(s, log) && Monotone(log) && Bijective(log) && Plan(s, req).1.Recorded?
    ensures var next := log + [Cursor(req.context.close, req.context.contextId)];
            Stands(Plan(s, req).0, next) && Monotone(next) && Bijective(next)
  {
    hide Validate, Bijective;
    var c := Cursor(req.context.close, req.context.contextId);
    if log != [] {
      ValidatedAdvances(req, log[|log| - 1], s.trust);
    }
    if c.contextId in s.events {
      var k :| 0 <= k < |log| && log[k] == c;
      assert k < |log| - 1 ==> log[k].close <= log[|log| - 1].close;
    }
    hide Monotone;
    ExtendLog(log, c);
    AcceptStands(s, log, req);
  }

  lemma AcceptStands(s: Stream, log: seq<Cursor>, req: Request)
    requires Stands(s, log) && Plan(s, req).1.Recorded?
    requires req.context.contextId in s.events ==> log != [] && log[|log| - 1] == Cursor(req.context.close, req.context.contextId)
    ensures Stands(Plan(s, req).0, log + [Cursor(req.context.close, req.context.contextId)])
  {
    hide Validate;
    var c := Cursor(req.context.close, req.context.contextId);
    var next, t := log + [c], Plan(s, req).0;
    assert next[|log|] == c;
    forall id | id in t.events
      ensures Cursor(t.events[id], id) in next
    {
      assert id in s.events ==> Cursor(s.events[id], id) in log;
    }
  }

  /** A call that accepts nothing leaves the row and the events as they were. */
  lemma NothingAccepted(s: Stream, op: Op)
    requires !Accepts(s, op)
    ensures Next(s, op).cursor == s.cursor && Next(s, op).events == s.events
  {
    hide Validate;
  }

  /**
   Over every sequence of calls on the stream, the stored row being put in doubt at any point, the
   recorded close time never decreases, and across the whole accepted history each close time is bound to
   one context id and each context id to one close time.
   */
  lemma {:induction false} CursorIsMonotoneAndFunctional(ops: seq<Op>)
    ensures Stands(Run(ops), Accepted(ops)) && Monotone(Accepted(ops)) && Bijective(Accepted(ops))
  {
    if ops != [] {
      var front, last := ops[..|ops| - 1], ops[|ops| - 1];
      CursorIsMonotoneAndFunctional(front);
      hide Plan, Monotone, Bijective;
      if Accepts(Run(front), last) {
        AcceptKeeps(Run(front), Accepted(front), last.req);
      } else {
        NothingAccepted(Run(front), last);
      }
    }
  }

  /** A longer run only moves the stored close time forward. */
  lemma {:induction false} CursorNeverRegresses(ops: seq<Op>, k: nat)
    requires k <= |ops| && Run(ops[..k]).cursor.Some?
    ensures Run(ops).cursor.Some? && Run(ops[..k]).cursor.value.close <= Run(ops).cursor.value.close
    decreases |ops|
  {
    if k == |ops| {
      assert ops[..k] == ops;
    } else {
      var front := ops[..|ops| - 1];
      assert front[..k] == ops[..k];
      CursorNeverRegresses(front, k);
    }
  }

  lemma DoubtedStep(s: Stream, op: Op)
    requires s.cursor.Some? && !s.trust.Certain?
    ensures !Accepts(s, op) && Next(s, op).cursor == s.cursor && !Next(s, op).trust.Certain?
  {
  }

  /** Once the stored row is in doubt, no later call is accepted and the row stays as it is. */
  lemma {:induction false} DoubtStopsTheStream(ops: seq<Op>, more: seq<Op>)
    requires Run(ops).cursor.Some? && !Run(ops).trust.Certain?
    ensures Accepted(ops + more) == Accepted(ops)
    ensures Run(ops + more).cursor == Run(ops).cursor && !Run(ops + more).trust.Certain?
    decreases |more|
  {
    if more == [] {
      assert ops + more == ops;
    } else {
      var front, all := more[..|more| - 1], ops + more;
      assert all[..|all| - 1] == ops + front && all[|all| - 1] == more[|more| - 1];
      DoubtStopsTheStream(ops, front);
      hide Next, Accepts;
      DoubtedStep(Run(ops + front), more[|more| - 1]);
    }
  }

  // ---------------------------------------------------------------- which calls are accepted

  /** The check a reason stands for fails, whatever the other checks say. */
  ghost predicate Fault(reason: Rejection, s: Stream, req: Request) {
    var c := req.context;
    match reason
    case CursorUncertain => s.cursor.Some? && s.trust.Uncertain?
    case UnsupportedVersion => c.majorVersion != Some(1)
    case NotClosedCandle => !c.closedCandle
    case Malformed => !c.wellFormed || c.close < 0 || Blank(c.contextId)
    case MarketMismatch => c.market != req.market
    case SymbolMismatch => c.symbol != req.symbol
    case IntervalMismatch => c.interval != req.interval
    case FutureCursor => c.close >= req.now
    case StaleContext => req.now - c.close > req.maxAge || c.freshness > req.maxAge
    case CursorInvalid => s.cursor.Some? && s.trust.Unparsable?
    case CursorRegression => s.cursor.Some? && c.close < s.cursor.value.close
    case CursorConflict => s.cursor.Some? && c.close == s.cursor.value.close && c.contextId != s.cursor.value.contextId
  }

  /** The checks in the order they are made. */
  const ORDER := [CursorUncertain, UnsupportedVersion, NotClosedCandle, Malformed, MarketMismatch, SymbolMismatch, IntervalMismatch,
                  FutureCursor, StaleContext, CursorInvalid, CursorRegression, CursorConflict]

  /** A context is refused for a reason exactly when that check is the first to fail; else the call goes on. */
  lemma RejectedIffFirstFault(s: Stream, req: Request)
    requires !req.snapshotRejected
    ensures forall i :: 0 <= i < |ORDER| ==>
              (Plan(s, req).1 == ContextRejected(ORDER[i]) <==> Fault(ORDER[i], s, req) && forall j :: 0 <= j < i ==> !Fault(ORDER[j], s, req))
    ensures Plan(s, req).1.ContextRejected? <==> exists i :: 0 <= i < |ORDER| && Fault(ORDER[i], s, req)
  {
    hide Fault, Plan;
    var n := FirstFault(s, req, 0);
    if n < |ORDER| {
      FaultRejects(s, req, n);
    } else {
      NoFaultPasses(s, req);
    }
    OrderDistinct();
  }

  /** The first check that fails from the n-th on. */
  ghost function FirstFault(s: Stream, req: Request, n: nat): (k: nat)
    requires n <= |ORDER|
    ensures n <= k <= |ORDER| && (k < |ORDER| ==> Fault(ORDER[k], s, req)) && forall j :: n <= j < k ==> !Fault(ORDER[j], s, req)
    decreases |ORDER| - n
  {
    if n == |ORDER| || Fault(ORDER[n], s, req) then n else FirstFault(s, req, n + 1)
  }

  lemma FaultRejects(s: Stream, req: Request, n: nat)
    requires !req.snapshotRejected && n < |ORDER| && Fault(ORDER[n], s, req) && forall j :: 0 <= j < n ==> !Fault(ORDER[j], s, req)
    ensures Plan(s, req).1 == ContextRejected(ORDER[n])
  {
    hide Blank;
    OrderIs();
  }

  lemma NoFaultPasses(s: Stream, req: Request)
    requires !req.snapshotRejected && forall j :: 0 <= j < |ORDER| ==> !Fault(ORDER[j], s, req)
    ensures !Plan(s, req).1.ContextRejected?
  {
    hide Blank;
    OrderIs();
  }

  lemma OrderDistinct()
    ensures Distinct(ORDER)
  {
  }

  lemma OrderIs()
    ensures ORDER[0].CursorUncertain? && ORDER[1].UnsupportedVersion? && ORDER[2].NotClosedCandle? && ORDER[3].Malformed?
    ensures ORDER[4].MarketMismatch? && ORDER[5].SymbolMismatch? && ORDER[6].IntervalMismatch? && ORDER[7].FutureCursor?
    ensures ORDER[8].StaleContext? && ORDER[9].CursorInvalid? && ORDER[10].CursorRegression? && ORDER[11].CursorConflict?
  {
  }

  /** The context is in every respect what the call asked for and the rest of the planning goes well. */
  ghost predicate WellReceived(req: Request) {
    var c := req.context;
    && c.majorVersion == Some(1) && c.closedCandle && c.wellFormed && 0 <= c.close && !Blank(c.contextId)
    && c.market == req.market && c.symbol == req.symbol && c.interval == req.interval
    && c.close < req.now <= c.close + req.maxAge && c.freshness <= req.maxAge
    && !req.snapshotRejected && req.observedAt == c.close && !req.intentFails
  }

  lemma AcceptedIff(s: Stream, req: Request)
    ensures var c := req.context;
            Plan(s, req).1.Recorded? <==>
            && WellReceived(req)
            && (s.cursor.Some? ==> s.trust.Certain? && (c.close > s.cursor.value.close || Cursor(c.close, c.contextId) == s.cursor.value))
            && (c.contextId in s.events ==> s.events[c.contextId] == c.close)
    ensures Plan(s, req).1.Recorded? ==> Plan(s, req).1.inserted == (req.context.contextId !in s.events)
  {
  }

  /** The stored row was put in doubt after something had been accepted. */
  ghost predicate Doubted(ops: seq<Op>) {
    exists k :: 0 <= k < |ops| && ops[k].Doubt? && Accepted(ops[..k]) != []
  }

  lemma {:induction false} CertainIffNotDoubted(ops: seq<Op>)
    ensures Run(ops).trust.Certain? <==> !Doubted(ops)
  {
    if ops != [] {
      var front, last := ops[..|ops| - 1], ops[|ops| - 1];
      CertainIffNotDoubted(front);
      CursorIsMonotoneAndFunctional(front);
      DoubtedSnoc(ops);
      hide Plan, Monotone, Bijective, Doubted, Accepted;
      if last.Call? {
        PlanKeepsTrust(Run(front), last.req);
        if Run(front).cursor.None? {
          NoCursorIsCertain(front);
        }
      }
    }
  }

  lemma DoubtedSnoc(ops: seq<Op>)
    requires ops != []
    ensures var front, last := ops[..|ops| - 1], ops[|ops| - 1];
            Doubted(ops) <==> Doubted(front) || (last.Doubt? && Accepted(front) != [])
  {
    hide Accepted;
    var front := ops[..|ops| - 1];
    assert forall k :: 0 <= k < |front| ==> front[k] == ops[k] && front[..k] == ops[..k];
  }

  lemma PlanKeepsTrust(s: Stream, req: Request)
    ensures s.cursor.Some? || s.trust.Certain? ==> Plan(s, req).0.trust == s.trust
  {
    hide Blank;
  }

  lemma {:induction false} NoCursorIsCertain(ops: seq<Op>)
    requires Run(ops).cursor.None?
    ensures Run(ops).trust.Certain?
  {
    if ops != [] {
      var front := ops[..|ops| - 1];
      if Run(front).cursor.None? {
        NoCursorIsCertain(front);
      }
    }
  }

  /**
   Over every history: a call is accepted exactly when its context is well received and, the row not having
   been put in doubt, it either repeats the last accepted context or is newer than it under an id never
   accepted before; and it adds an event in the second case only.
   */
  lemma AcceptedIffNewOrRepeated(ops: seq<Op>, req: Request)
    ensures var log, c := Accepted(ops), Cursor(req.context.close, req.context.contextId);
            var repeats := log != [] && log[|log| - 1] == c;
            var isNew := (log != [] ==> c.close > log[|log| - 1].close) && forall i :: 0 <= i < |log| ==> log[i].contextId != c.contextId;
            && (Accepts(Run(ops), Call(req)) <==> WellReceived(req) && !Doubted(ops) && (repeats || isNew))
            && (Accepts(Run(ops), Call(req)) ==> Plan(Run(ops), req).1 == Recorded(isNew))
  {
    hide Stands, Monotone, Bijective, Plan, WellReceived, Doubted, Run, Accepted;
    CursorIsMonotoneAndFunctional(ops);
    CertainIffNotDoubted(ops);
    AcceptedIffLog(Run(ops), Accepted(ops), req);
    if Accepted(ops) == [] {
      EmptyLog(Run(ops), Accepted(ops));
      NoCursorIsCertain(ops);
    }
  }

  lemma EmptyLog(s: Stream, log: seq<Cursor>)
    requires Stands(s, log) && log == []
    ensures s.cursor.None?
  {
  }

  lemma AcceptedIffLog(s: Stream, log: seq<Cursor>, req: Request)
    requires Stands(s, log) && Monotone(log)
    ensures var c := Cursor(req.context.close, req.context.contextId);
            var repeats := log != [] && log[|log| - 1] == c;
            var isNew := (log != [] ==> c.close > log[|log| - 1].close) && forall i :: 0 <= i < |log| ==> log[i].contextId != c.contextId;
            && (Plan(s, req).1.Recorded? <==> WellReceived(req) && (log == [] || s.trust.Certain?) && (repeats || isNew))
            && (Plan(s, req).1.Recorded? ==> Plan(s, req).1 == Recorded(isNew))
  {
    AcceptedIff(s, req);
    hide Plan, WellReceived;
    var id := req.context.contextId;
    if id in s.events {
      var k :| 0 <= k < |log| && log[k] == Cursor(s.events[id], id);
      assert k < |log| - 1 ==> log[k].close <= log[|log| - 1].close;
    }
  }

  class CursorRepository {
    var stream: Stream

    constructor ()
      ensures stream == EMPTY_STREAM
    {
      stream := EMPTY_STREAM;
    }

    method PlanShadowOnce(req: Request) returns (outcome: Outcome)
      modifies this
      ensures (stream, outcome) == Plan(old(stream), req)
    {
      if req.snapshotRejected {
        return SnapshotRejected;
      }
      if stream.cursor.Some? && stream.trust.Uncertain? {
        return ContextRejected(CursorUncertain);
      }
      var rejection := Validate(req, stream.cursor, stream.trust);
      if rejection.Some? {
        return ContextRejected(rejection.value);
      }
      if req.observedAt != req.context.close {
        return SnapshotRejected;
      }
      if req.intentFails {
        return Raised;
      }
      var id, close := req.context.contextId, req.context.close;
      if id in stream.events {
        return if stream.events[id] == close then Recorded(false) else Raised;
      }
      stream := Stream(Some(Cursor(close, id)), stream.events[id := close], Certain);
      outcome := Recorded(true);
    }
  }
}
