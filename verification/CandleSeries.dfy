/**
 Live candle series: what the runtime stores for each closed candle, how it recovers a gap, and how
 the scanner pages the missing range out of the REST endpoint.

 An interval is its length in milliseconds. Prices and volumes are one opaque payload.
 */
module CandleSeries {
  import opened Prelude
  import opened Sorting
  import opened Multiples

  datatype Key = Key(market: string, symbol: string, step: nat)
  datatype Candle = Candle(key: Key, open: int, close: int, isClosed: bool, payload: int)

  type Store = map<Key, seq<Candle>>

  function Series(store: Store, key: Key): seq<Candle> { if key in store then store[key] else [] }

  function OpenOf(c: Candle): int { c.open }

  /** Consecutive candles open exactly one interval apart. */
  ghost predicate Contiguous(s: seq<Candle>, step: nat) {
    forall i :: 0 < i < |s| ==> s[i].open == s[i - 1].open + step
  }

  // ---------------------------------------------------------------- the candle store

  /** First position whose candle does not open before t; `bisect_left` on a sorted series. */
  function Position(s: seq<Candle>, t: int): (i: nat)
    ensures i <= |s|
    ensures i > 0 ==> s[i - 1].open < t
  {
    if s == [] || s[|s| - 1].open < t then |s| else Position(s[..|s| - 1], t)
  }

  datatype Add = Inserted(series: seq<Candle>) | Unchanged | Conflict

  function AddTo(s: seq<Candle>, c: Candle, limit: nat): Add {
    if !c.isClosed then Unchanged
    else
      var i := Position(s, c.open);
      if i < |s| && s[i].open == c.open then if s[i] == c then Unchanged else Conflict
      else Inserted(LastN(s[..i] + [c] + s[i..], limit))
  }

  ghost predicate Increasing(s: seq<Candle>) {
    forall i, j :: 0 <= i < j < |s| ==> s[i].open < s[j].open
  }

  lemma {:induction false} PositionSplits(s: seq<Candle>, t: int)
    requires Increasing(s)
    ensures forall j :: 0 <= j < |s| ==> (s[j].open < t <==> j < Position(s, t))
  {
    if s != [] && s[|s| - 1].open >= t {
      PositionSplits(s[..|s| - 1], t);
      assert forall j :: 0 <= j < |s| - 1 ==> s[..|s| - 1][j] == s[j];
    }
  }

  /** The series with c added holds exactly its candles and c, by opening time. */
  ghost predicate Extended(s: seq<Candle>, c: Candle, t: seq<Candle>) {
    Increasing(t) && |t| == |s| + 1 && forall x :: x in t <==> x in s || x == c
  }

  /**
   Adding to a series in time order: an open candle and one already there change nothing, another candle of
   the same opening time is a conflict, and any other is put in its place, the newest ones being kept.
   */
  lemma AddOutcome(s: seq<Candle>, c: Candle, limit: nat)
    requires Increasing(s)
    ensures AddTo(s, c, limit).Unchanged? <==> !c.isClosed || c in s
    ensures AddTo(s, c, limit).Conflict? <==> c.isClosed && c !in s && exists i :: 0 <= i < |s| && s[i].open == c.open
    ensures AddTo(s, c, limit).Inserted? ==> exists t :: Extended(s, c, t) && AddTo(s, c, limit).series == LastN(t, limit)
  {
    hide AddTo, Increasing, Extended, LastN;
    if !c.isClosed {
      OpenIsIgnored(s, c, limit);
    } else if i :| 0 <= i < |s| && s[i].open == c.open {
      AddAtKnown(s, c, limit, i);
    } else {
      AddNew(s, c, limit);
    }
  }

  lemma OpenIsIgnored(s: seq<Candle>, c: Candle, limit: nat)
    requires !c.isClosed
    ensures AddTo(s, c, limit) == Unchanged
  {
  }

  lemma AddAtKnown(s: seq<Candle>, c: Candle, limit: nat, i: nat)
    requires Increasing(s) && c.isClosed && i < |s| && s[i].open == c.open
    ensures AddTo(s, c, limit) == if s[i] == c then Unchanged else Conflict
    ensures c in s <==> s[i] == c
  {
    PositionSplits(s, c.open);
    var p := Position(s, c.open);
    hide Position;
    assert p <= i;
    assert forall j :: 0 <= j < i ==> s[j].open < s[i].open;
    if j :| 0 <= j < |s| && s[j] == c {
      assert j == i;
    }
  }

  lemma AddNew(s: seq<Candle>, c: Candle, limit: nat)
    requires Increasing(s) && c.isClosed && forall j :: 0 <= j < |s| ==> s[j].open != c.open
    ensures c !in s && AddTo(s, c, limit).Inserted?
    ensures exists t :: Extended(s, c, t) && AddTo(s, c, limit).series == LastN(t, limit)
  {
    var i := Position(s, c.open);
    PositionSplits(s, c.open);
    hide Position, Extended, LastN;
    assert forall j :: i <= j < |s| ==> s[j].open > c.open;
    InsertExtends(s, c, i);
  }

  lemma InsertExtends(s: seq<Candle>, c: Candle, i: nat)
    requires Increasing(s) && i <= |s|
    requires (forall j :: 0 <= j < i ==> s[j].open < c.open) && forall j :: i <= j < |s| ==> s[j].open > c.open
    ensures Extended(s, c, s[..i] + [c] + s[i..])
  {
    var t := s[..i] + [c] + s[i..];
    assert forall j :: 0 <= j < |t| ==> t[j] == if j < i then s[j] else if j == i then c else s[j - 1];
    InsertHolds(s, c, i);
  }

  lemma InsertHolds(s: seq<Candle>, c: Candle, i: nat)
    requires i <= |s|
    ensures forall x :: x in s[..i] + [c] + s[i..] <==> x in s || x == c
  {
    assert s == s[..i] + s[i..];
  }

  lemma {:induction false} ContiguousIncreases(s: seq<Candle>, step: nat)
    requires step >= 1 && Contiguous(s, step)
    ensures Increasing(s)
  {
    if |s| > 1 {
      var front := s[..|s| - 1];
      ContiguousIncreases(front, step);
      assert s[|s| - 1].open == front[|front| - 1].open + step;
      assert forall i :: 0 <= i < |front| ==> front[i] == s[i] && s[i].open <= front[|front| - 1].open;
    }
  }

  /** A candle newer than the whole series is appended, and the oldest ones give way. */
  lemma NewerIsAppended(s: seq<Candle>, c: Candle, limit: nat)
    requires c.isClosed && (s != [] ==> s[|s| - 1].open < c.open)
    ensures AddTo(s, c, limit) == Inserted(LastN(s + [c], limit))
  {
    assert s[..|s|] == s && s[|s|..] == [];
    assert s + [c] + [] == s + [c];
  }

  lemma LastNContiguous(s: seq<Candle>, step: nat, limit: nat)
    requires Contiguous(s, step)
    ensures Contiguous(LastN(s, limit), step)
  {
    if |s| > limit {
      var d, t := |s| - limit, LastN(s, limit);
      forall i | 0 < i < |t|
        ensures t[i].open == t[i - 1].open + step
      {
        assert t[i] == s[d + i] && t[i - 1] == s[d + i - 1];
      }
    }
  }

  // ---------------------------------------------------------------- gap recovery

  datatype Gap = Gap(key: Key, start: int, end: int)

  function DetectGap(s: seq<Candle>, c: Candle): Option<Gap> {
    if s == [] || c.open <= s[|s| - 1].open + c.key.step then None
    else Some(Gap(c.key, s[|s| - 1].open + c.key.step, c.open - 1))
  }

  /** The opens are start, start + step, ... up to the last one not after end: Python's range. */
  predicate Spans(s: seq<Candle>, gap: Gap) {
    && s != [] && s[0].open == gap.start
    && (forall i :: 0 < i < |s| ==> s[i].open == s[i - 1].open + gap.key.step)
    && s[|s| - 1].open <= gap.end < s[|s| - 1].open + gap.key.step
  }

  predicate Acceptable(s: seq<Candle>, gap: Gap) {
    Spans(s, gap) && forall i :: 0 <= i < |s| ==>
      s[i].key == gap.key && s[i].isClosed && s[i].close == s[i].open + gap.key.step - 1
  }

  /** What a recovery attempt meets: the pages it was given, or no answer, and where a later write fails. */
  datatype Recovery = NoAnswer | Page(candles: seq<Candle>, failsAt: Option<nat>)

  function Append(s: seq<Candle>, more: seq<Candle>, limit: nat): seq<Candle> {
    if more == [] then s else LastN(Append(s, more[..|more| - 1], limit) + [more[|more| - 1]], limit)
  }

  /** Recovered in full, refused without change, or broken off by a write that raised. */
  datatype Ending = Complete | Refused | BrokenOff

  /** The series after the attempt, and how it ended. */
  function RecoverGap(s: seq<Candle>, gap: Gap, r: Recovery, limit: nat): (seq<Candle>, Ending) {
    if r.NoAnswer? then (s, Refused)
    else
      var ordered := SortBy(r.candles, OpenOf);
      if !Acceptable(ordered, gap) then (s, Refused)
      else if r.failsAt.Some? && r.failsAt.value < |ordered| then (Append(s, ordered[..r.failsAt.value + 1], limit), BrokenOff)
      else (Append(s, ordered, limit), Complete)
  }

  datatype Handled = Stored | Held | Ignored | Raised

  /** One live candle on its own series. */
  function Handle(s: seq<Candle>, c: Candle, r: Recovery, limit: nat): (seq<Candle>, Handled) {
    if !c.isClosed || (s != [] && c.open < s[|s| - 1].open) then (s, Ignored)
    else
      var gap := DetectGap(s, c);
      var (t, ending) := if gap.None? then (s, Complete) else RecoverGap(s, gap.value, r, limit);
      if ending.Refused? then (t, Held)
      else if ending.BrokenOff? then (t, Raised)
      else match AddTo(t, c, limit)
        case Inserted(u) => (u, Stored)
        case Unchanged => (t, Ignored)
        case Conflict => (t, Raised)
  }

  function LastOpen(s: seq<Candle>): int
    requires s != []
  {
    s[|s| - 1].open
  }

  lemma AppendOne(s: seq<Candle>, c: Candle, step: nat, limit: nat)
    requires limit >= 1 && Contiguous(s, step) && (s != [] ==> c.open == LastOpen(s) + step)
    ensures var t := LastN(s + [c], limit);
            Contiguous(t, step) && t != [] && t[|t| - 1] == c
  {
    assert Contiguous(s + [c], step);
    LastNContiguous(s + [c], step, limit);
  }

  lemma {:induction false} AppendContiguous(s: seq<Candle>, more: seq<Candle>, step: nat, limit: nat)
    requires limit >= 1 && Contiguous(s, step) && Contiguous(more, step) && more != []
    requires s != [] ==> more[0].open == LastOpen(s) + step
    ensures Append(s, more, limit) != []
    ensures Contiguous(Append(s, more, limit), step) && LastOpen(Append(s, more, limit)) == LastOpen(more)
  {
    var front, c := more[..|more| - 1], more[|more| - 1];
    if front != [] {
      assert forall i :: 0 <= i < |front| ==> front[i] == more[i];
      AppendContiguous(s, front, step, limit);
      assert more[|more| - 1].open == more[|more| - 2].open + step;
    }
    AppendOne(Append(s, front, limit), c, step, limit);
  }

  lemma {:induction false} WholeStepsAlong(s: seq<Candle>, step: nat, i: nat)
    requires step >= 1 && i < |s| && Contiguous(s, step)
    ensures Multiple(LastOpen(s) - s[i].open, step)
    decreases |s| - i
  {
    hide Multiple;
    StepIsMultiple(step);
    if i < |s| - 1 {
      WholeStepsAlong(s, step, i + 1);
      SumOfMultiples(LastOpen(s) - s[i + 1].open, step, step);
    }
  }

  lemma AcceptedPartExtends(s: seq<Candle>, gap: Gap, ordered: seq<Candle>, n: nat, limit: nat)
    requires limit >= 1 && gap.key.step >= 1 && Acceptable(ordered, gap) && 1 <= n <= |ordered|
    requires s != [] && Contiguous(s, gap.key.step) && gap.start == LastOpen(s) + gap.key.step
    ensures var t := Append(s, ordered[..n], limit);
            && t != [] && Contiguous(t, gap.key.step) && LastOpen(t) == ordered[n - 1].open
            && Multiple(LastOpen(t) - LastOpen(s), gap.key.step)
  {
    hide Multiple;
    var step, part := gap.key.step, ordered[..n];
    assert Contiguous(part, step);
    AppendContiguous(s, part, step, limit);
    WholeStepsAlong(part, step, 0);
    StepIsMultiple(step);
    SumOfMultiples(LastOpen(part) - part[0].open, step, step);
  }

  /** Whatever the pages, recovery keeps the series contiguous and only ever extends it by whole intervals. */
  lemma RecoverContiguous(s: seq<Candle>, gap: Gap, r: Recovery, limit: nat)
    requires limit >= 1 && gap.key.step >= 1
    requires s != [] && Contiguous(s, gap.key.step) && gap.start == LastOpen(s) + gap.key.step
    ensures var (t, ending) := RecoverGap(s, gap, r, limit);
            && t != [] && Contiguous(t, gap.key.step)
            && Multiple(LastOpen(t) - LastOpen(s), gap.key.step)
            && (ending.Refused? ==> t == s)
            && (ending.Complete? ==> LastOpen(t) <= gap.end < LastOpen(t) + gap.key.step)
  {
    hide Multiple, SortBy, Contiguous, Append;
    StepIsMultiple(gap.key.step);
    if r.Page? {
      var ordered := SortBy(r.candles, OpenOf);
      if Acceptable(ordered, gap) {
        var n := if r.failsAt.Some? && r.failsAt.value < |ordered| then r.failsAt.value + 1 else |ordered|;
        assert n == |ordered| ==> ordered[..n] == ordered;
        AcceptedPartExtends(s, gap, ordered, n, limit);
      }
    }
  }

  lemma PositionFinds(s: seq<Candle>, t: int, step: nat)
    requires s != [] && step >= 1 && Contiguous(s, step) && LastOpen(s) == t
    ensures Position(s, t) == |s| - 1
  {
    if |s| >= 2 {
      assert s[|s| - 2].open < t;
    }
  }

  /** Storing just above a contiguous series keeps it contiguous exactly when it is one interval above. */
  lemma StoreContiguousIff(t: seq<Candle>, c: Candle, limit: nat)
    requires limit >= 2 && c.key.step >= 1 && c.isClosed && t != [] && Contiguous(t, c.key.step)
    requires LastOpen(t) < c.open <= LastOpen(t) + c.key.step
    ensures AddTo(t, c, limit) == Inserted(LastN(t + [c], limit)) && LastN(t + [c], limit) != []
    ensures LastOpen(LastN(t + [c], limit)) == c.open
    ensures Contiguous(LastN(t + [c], limit), c.key.step) <==> Multiple(c.open - LastOpen(t), c.key.step)
  {
    var step, u := c.key.step, LastN(t + [c], limit);
    NewerIsAppended(t, c, limit);
    assert u[|u| - 1] == c && u[|u| - 2] == t[|t| - 1];
    if Multiple(c.open - LastOpen(t), step) {
      SmallMultiple(c.open - LastOpen(t), step);
      AppendOne(t, c, step, limit);
    }
    if Contiguous(u, step) {
      StepIsMultiple(step);
    }
  }

  /** What one live candle does to a non-empty contiguous series s, given the series t after it. */
  ghost predicate HandledWell(s: seq<Candle>, c: Candle, t: seq<Candle>, outcome: Handled)
    requires c.key.step >= 1 && s != []
  {
    && t != []
    && (outcome == Stored ==>
          && LastOpen(s) < c.open && LastOpen(t) == c.open
          && (Contiguous(t, c.key.step) <==> Multiple(c.open - LastOpen(s), c.key.step)))
    && (outcome != Stored ==> Contiguous(t, c.key.step) && Multiple(LastOpen(t) - LastOpen(s), c.key.step))
  }

  lemma HandleAcrossGap(s: seq<Candle>, c: Candle, r: Recovery, limit: nat)
    requires limit >= 2 && c.key.step >= 1 && s != [] && Contiguous(s, c.key.step)
    requires c.isClosed && c.open > LastOpen(s) + c.key.step
    ensures var (t, outcome) := Handle(s, c, r, limit);
            HandledWell(s, c, t, outcome) && outcome in {Stored, Held, Raised}
  {
    hide Multiple, RecoverGap, Contiguous, AddTo;
    var gap := DetectGap(s, c).value;
    RecoverContiguous(s, gap, r, limit);
    var (t, ending) := RecoverGap(s, gap, r, limit);
    if ending.Complete? {
      StoreContiguousIff(t, c, limit);
      SumOfMultiples(c.open - LastOpen(t), LastOpen(t) - LastOpen(s), c.key.step);
    }
  }

  /**
   A stored live candle leaves the series contiguous exactly when it opens a whole number of intervals
   after the last stored one; a candle that is not stored never disturbs it. For arbitrary REST pages.
   */
  lemma HandleContiguousIffAligned(s: seq<Candle>, c: Candle, r: Recovery, limit: nat)
    requires limit >= 2 && c.key.step >= 1 && s != [] && Contiguous(s, c.key.step)
    ensures var (t, outcome) := Handle(s, c, r, limit);
            HandledWell(s, c, t, outcome)
  {
    hide Multiple, RecoverGap, Contiguous, AddTo;
    StepIsMultiple(c.key.step);
    if c.isClosed && c.open == LastOpen(s) {
      AddKnown(s, c, limit);
    } else if c.isClosed && LastOpen(s) < c.open <= LastOpen(s) + c.key.step {
      StoreContiguousIff(s, c, limit);
    } else if c.isClosed && c.open > LastOpen(s) + c.key.step {
      HandleAcrossGap(s, c, r, limit);
    }
  }

  // ---------------------------------------------------------------- what one live candle does

  lemma LastNTwice(s: seq<Candle>, c: Candle, limit: nat)
    requires limit >= 1
    ensures LastN(LastN(s, limit) + [c], limit) == LastN(s + [c], limit)
  {
  }

  /** Adding candle by candle, the oldest giving way each time, is adding them all and keeping the newest. */
  lemma {:induction false} AppendIsLastN(s: seq<Candle>, more: seq<Candle>, limit: nat)
    requires limit >= 1 && more != []
    ensures Append(s, more, limit) == LastN(s + more, limit)
  {
    var front, c := more[..|more| - 1], more[|more| - 1];
    assert s + more == s + front + [c];
    if front == [] {
      assert s + front == s;
    } else {
      AppendIsLastN(s, front, limit);
      LastNTwice(s + front, c, limit);
    }
  }

  /** The candles fill the time between the open `from` and candle c: closed, of its series, one after the other. */
  ghost predicate FillsGap(p: seq<Candle>, from: int, c: Candle) {
    && p != [] && p[0].open == from + c.key.step
    && (forall i :: 0 < i < |p| ==> p[i].open == p[i - 1].open + c.key.step)
    && p[|p| - 1].open < c.open <= p[|p| - 1].open + c.key.step
    && forall i :: 0 <= i < |p| ==> p[i].key == c.key && p[i].isClosed && p[i].close == p[i].open + c.key.step - 1
  }

  /** The answer to a recovery request, in time order, fills the gap below c. */
  ghost predicate Bridges(s: seq<Candle>, c: Candle, r: Recovery) {
    s != [] && r.Page? && FillsGap(SortBy(r.candles, OpenOf), s[|s| - 1].open, c)
  }

  /** A write fails while the recovered candles are added. */
  ghost predicate BreaksOff(r: Recovery) { r.Page? && r.failsAt.Some? && r.failsAt.value < |r.candles| }

  /** The recovered candles that are stored, in time order: all of them, or those up to the failing write. */
  ghost function Written(r: Recovery): seq<Candle>
    requires r.Page?
  {
    var ordered := SortBy(r.candles, OpenOf);
    if r.failsAt.Some? && r.failsAt.value < |ordered| then ordered[..r.failsAt.value + 1] else ordered
  }

  /**
   One live candle on a contiguous series, case by case: what is ignored, what raises, what is held back
   and what is stored, and the series it leaves.
   */
  lemma HandleOutcome(s: seq<Candle>, c: Candle, r: Recovery, limit: nat)
    requires limit >= 1 && c.key.step >= 1 && Contiguous(s, c.key.step)
    ensures var (t, outcome) := Handle(s, c, r, limit);
            var late := s != [] && c.open > s[|s| - 1].open + c.key.step;
            var known := s != [] && c.open == s[|s| - 1].open;
            && (outcome == Ignored <==> !c.isClosed || (s != [] && c.open < s[|s| - 1].open) || (known && c == s[|s| - 1]))
            && (outcome == Held <==> c.isClosed && late && !Bridges(s, c, r))
            && (outcome == Raised <==> c.isClosed && ((known && c != s[|s| - 1]) || (late && Bridges(s, c, r) && BreaksOff(r))))
            && (outcome in {Ignored, Held} || known ==> t == s)
            && (outcome == Stored && !late ==> t == LastN(s + [c], limit))
            && (outcome == Stored && late ==> r.Page? && t == LastN(s + Written(r) + [c], limit))
            && (outcome == Raised && late ==> r.Page? && t == LastN(s + Written(r), limit))
  {
    if s == [] {
      ClosedStartsSeries(c, limit);
      assert s + [c] == [c];
    } else if c.isClosed && c.open == LastOpen(s) {
      ContiguousIncreases(s, c.key.step);
      AddOutcome(s, c, limit);
      assert s[|s| - 1] in s;
      assert forall i :: 0 <= i < |s| && s[i].open == c.open ==> i == |s| - 1;
      hide AddTo;
    } else if c.isClosed && LastOpen(s) < c.open <= LastOpen(s) + c.key.step {
      NewerIsAppended(s, c, limit);
      hide AddTo;
    } else if c.isClosed && c.open > LastOpen(s) + c.key.step {
      LateOutcome(s, c, r, limit);
      hide Handle, SortBy, Bridges, Written, LastN;
    }
  }

  lemma BridgesIff(s: seq<Candle>, c: Candle, r: Recovery)
    requires s != [] && r.Page? && c.key.step >= 1 && c.open > LastOpen(s) + c.key.step
    ensures DetectGap(s, c).Some? && (Bridges(s, c, r) <==> Acceptable(SortBy(r.candles, OpenOf), DetectGap(s, c).value))
    ensures |SortBy(r.candles, OpenOf)| == |r.candles|
  {
    SortBySorts(r.candles, OpenOf);
    assert |multiset(SortBy(r.candles, OpenOf))| == |multiset(r.candles)|;
    hide SortBy;
  }

  /** A candle across a gap. */
  lemma LateOutcome(s: seq<Candle>, c: Candle, r: Recovery, limit: nat)
    requires limit >= 1 && c.key.step >= 1 && s != [] && Contiguous(s, c.key.step)
    requires c.isClosed && c.open > LastOpen(s) + c.key.step
    ensures var (t, outcome) := Handle(s, c, r, limit);
            && outcome == (if !Bridges(s, c, r) then Held else if BreaksOff(r) then Raised else Stored)
            && (outcome == Held ==> t == s)
            && (outcome == Stored ==> r.Page? && t == LastN(s + Written(r) + [c], limit))
            && (outcome == Raised ==> r.Page? && t == LastN(s + Written(r), limit))
  {
    if r.Page? {
      BridgesIff(s, c, r);
      var ordered, gap := SortBy(r.candles, OpenOf), DetectGap(s, c).value;
      hide SortBy, Bridges;
      if Acceptable(ordered, gap) {
        if BreaksOff(r) {
          AppendIsLastN(s, ordered[..r.failsAt.value + 1], limit);
        } else {
          AppendIsLastN(s, ordered, limit);
          RecoverContiguous(s, gap, r, limit);
          NewerIsAppended(LastN(s + ordered, limit), c, limit);
          LastNTwice(s + ordered, c, limit);
        }
        hide AddTo, Append, LastN;
      }
    }
  }

  lemma ClosedStartsSeries(c: Candle, limit: nat)
    requires limit >= 1
    ensures AddTo([], c, limit) == if c.isClosed then Inserted([c]) else Unchanged
    ensures Contiguous([], c.key.step) && Contiguous([c], c.key.step)
  {
  }

  lemma AddKnown(s: seq<Candle>, c: Candle, limit: nat)
    requires s != [] && c.key.step >= 1 && Contiguous(s, c.key.step) && c.open == LastOpen(s)
    ensures !AddTo(s, c, limit).Inserted?
  {
    PositionFinds(s, c.open, c.key.step);
  }

  /** Off the exchange's time grid the runtime does store a candle that breaks the series. */
  lemma MisalignedCandleBreaksSeries(key: Key)
    requires key.step == 60000
    ensures var first := Candle(key, 0, 59999, true, 1);
            var odd := Candle(key, 30000, 89999, true, 2);
            && Handle([first], odd, NoAnswer, 600) == ([first, odd], Stored)
            && !Contiguous([first, odd], key.step)
  {
    var first := Candle(key, 0, 59999, true, 1);
    var odd := Candle(key, 30000, 89999, true, 2);
    NewerIsAppended([first], odd, 600);
    assert [first] + [odd] == [first, odd];
    assert [first, odd][1].open != [first, odd][0].open + key.step;
  }

  // ---------------------------------------------------------------- whole runs

  datatype Op =
    | Bootstrap(key: Key, ordered: seq<Candle>)
    | Live(candle: Candle, recovery: Recovery)
    | Retain(keys: set<Key>)

  /** Bootstrap history with repeats dropped; None when it is off the grid, conflicting or not contiguous. */
  function Validated(ordered: seq<Candle>, step: nat): Option<seq<Candle>>
    requires step >= 1
  {
    if ordered == [] then Some([])
    else
      var c := ordered[|ordered| - 1];
      match Validated(ordered[..|ordered| - 1], step)
      case None => None
      case Some(u) =>
        if u != [] && c.open == u[|u| - 1].open then if c == u[|u| - 1] then Some(u) else None
        else if c.open % step != 0 || (u != [] && c.open - u[|u| - 1].open != step) then None
        else Some(u + [c])
  }

  function Apply(store: Store, op: Op, limit: nat): Store {
    match op
    case Bootstrap(key, ordered) =>
      if key.step == 0 || key in store then store
      else
        var u := Validated(ordered, key.step);
        if u.None? then store else store[key := LastN(u.value, limit)]
    case Live(c, r) => store[c.key := Handle(Series(store, c.key), c, r, limit).0]
    case Retain(keys) => map k | k in store && k in keys :: store[k]
  }

  function Run(ops: seq<Op>, limit: nat): Store {
    if ops == [] then map[] else Apply(Run(ops[..|ops| - 1], limit), ops[|ops| - 1], limit)
  }

  /** Live candles open on the exchange's time grid. */
  ghost predicate Aligned(op: Op) {
    op.Live? ==> op.candle.key.step >= 1 && Multiple(op.candle.open, op.candle.key.step)
  }

  /** Contiguous, and standing on the grid. */
  ghost predicate SeriesOk(s: seq<Candle>, step: nat) {
    step >= 1 && Contiguous(s, step) && (s != [] ==> Multiple(LastOpen(s), step))
  }

  ghost predicate StoreOk(store: Store) {
    forall k :: k in store ==> SeriesOk(store[k], k.step)
  }

  lemma HandleKeepsSeries(s: seq<Candle>, c: Candle, r: Recovery, limit: nat)
    requires limit >= 2 && SeriesOk(s, c.key.step) && Multiple(c.open, c.key.step)
    ensures SeriesOk(Handle(s, c, r, limit).0, c.key.step)
  {
    hide Multiple, Contiguous;
    if s == [] {
      ClosedStartsSeries(c, limit);
      hide AddTo;
    } else {
      hide Handle;
      HandleContiguousIffAligned(s, c, r, limit);
      AlignedStays(s, c, Handle(s, c, r, limit).0, Handle(s, c, r, limit).1);
    }
  }

  lemma AlignedStays(s: seq<Candle>, c: Candle, t: seq<Candle>, outcome: Handled)
    requires s != [] && SeriesOk(s, c.key.step) && Multiple(c.open, c.key.step) && HandledWell(s, c, t, outcome)
    ensures SeriesOk(t, c.key.step)
  {
    hide Multiple, Contiguous;
    DifferenceOfMultiples(c.open, LastOpen(s), c.key.step);
    if outcome != Stored {
      SumOfMultiples(LastOpen(s), LastOpen(t) - LastOpen(s), c.key.step);
    }
  }

  /** Every candle of such a series is on the grid. */
  lemma SeriesOnGrid(s: seq<Candle>, step: nat, i: nat)
    requires SeriesOk(s, step) && i < |s|
    ensures Multiple(s[i].open, step)
  {
    hide Multiple;
    WholeStepsAlong(s, step, i);
    SumOfMultiples(s[i].open, LastOpen(s) - s[i].open, step);
  }

  lemma {:induction false} ValidatedOk(ordered: seq<Candle>, step: nat)
    requires step >= 1 && Validated(ordered, step).Some?
    ensures SeriesOk(Validated(ordered, step).value, step)
  {
    if ordered != [] {
      ValidatedOk(ordered[..|ordered| - 1], step);
    }
  }

  /** Every candle is on the grid and each repeats the one before it or opens one interval later. */
  ghost predicate History(ordered: seq<Candle>, step: nat)
    requires step >= 1
  {
    && (forall i :: 0 <= i < |ordered| ==> Multiple(ordered[i].open, step))
    && (forall i :: 0 < i < |ordered| ==> ordered[i] == ordered[i - 1] || ordered[i].open == ordered[i - 1].open + step)
  }

  lemma HistorySnoc(front: seq<Candle>, c: Candle, step: nat)
    requires step >= 1
    ensures History(front + [c], step) <==>
            && History(front, step) && Multiple(c.open, step)
            && (front != [] ==> c == front[|front| - 1] || c.open == front[|front| - 1].open + step)
  {
    var all := front + [c];
    assert forall i :: 0 <= i < |front| ==> all[i] == front[i];
    hide Multiple;
    if History(all, step) {
      assert Multiple(all[|front|].open, step);
      assert forall i :: 0 <= i < |front| ==> Multiple(all[i].open, step);
      assert forall i :: 0 < i < |front| ==> all[i] == all[i - 1] || all[i].open == all[i - 1].open + step;
    }
  }

  lemma {:induction false} ValidatedEnds(ordered: seq<Candle>, step: nat)
    requires step >= 1
    ensures Validated(ordered, step).Some? <==> History(ordered, step)
    ensures Validated(ordered, step).Some? ==>
            var u := Validated(ordered, step).value;
            (u == [] <==> ordered == []) && (u != [] ==> u[|u| - 1] == ordered[|ordered| - 1])
  {
    if ordered != [] {
      var front, c := ordered[..|ordered| - 1], ordered[|ordered| - 1];
      assert ordered == front + [c];
      ValidatedEnds(front, step);
      HistorySnoc(front, c, step);
      if History(front, step) && front != [] {
        assert Multiple(front[|front| - 1].open, step);
      }
      hide History;
    }
  }

  lemma {:induction false} ValidatedKeeps(ordered: seq<Candle>, step: nat, c: Candle)
    requires step >= 1 && Validated(ordered, step).Some?
    ensures c in Validated(ordered, step).value <==> c in ordered
  {
    if ordered != [] {
      var front, last := ordered[..|ordered| - 1], ordered[|ordered| - 1];
      assert ordered == front + [last];
      ValidatedKeeps(front, step, c);
      ValidatedEnds(front, step);
      hide History;
    }
  }

  /** Bootstrap history is accepted exactly when it is such a history; what is kept are its candles, each once. */
  lemma {:induction false} ValidatedIff(ordered: seq<Candle>, step: nat)
    requires step >= 1
    ensures Validated(ordered, step).Some? <==> History(ordered, step)
    ensures Validated(ordered, step).Some? ==> Kept(ordered, Validated(ordered, step).value, step)
  {
    hide Validated, History;
    ValidatedEnds(ordered, step);
    if Validated(ordered, step).Some? {
      ValidatedOk(ordered, step);
      forall c
        ensures c in Validated(ordered, step).value <==> c in ordered
      {
        ValidatedKeeps(ordered, step, c);
      }
    }
  }

  lemma ApplyKeepsStore(store: Store, op: Op, limit: nat)
    requires limit >= 2 && StoreOk(store) && Aligned(op)
    ensures StoreOk(Apply(store, op, limit))
  {
    hide Handle, SeriesOk, Validated;
    match op
    case Bootstrap(key, ordered) =>
      if key.step >= 1 && Validated(ordered, key.step).Some? {
        BootstrapOk(ordered, key.step, limit);
      }
    case Live(c, r) =>
      EmptyOk(c.key.step);
      assert SeriesOk(Series(store, c.key), c.key.step);
      HandleKeepsSeries(Series(store, c.key), c, r, limit);
    case Retain(keys) =>
  }

  lemma EmptyOk(step: nat)
    requires step >= 1
    ensures SeriesOk([], step)
  {
  }

  lemma BootstrapOk(ordered: seq<Candle>, step: nat, limit: nat)
    requires step >= 1 && limit >= 1 && Validated(ordered, step).Some?
    ensures SeriesOk(LastN(Validated(ordered, step).value, limit), step)
  {
    hide Multiple;
    ValidatedOk(ordered, step);
    LastNContiguous(Validated(ordered, step).value, step, limit);
  }

  /**
   What one call does to the store: a rotation keeps exactly the named series as they are; a live candle
   changes its own series only; a bootstrap fills a series that is not there yet, with the newest candles
   of a valid history, and changes no other.
   */
  lemma ApplyChangesOnly(store: Store, op: Op, limit: nat, k: Key)
    ensures var after := Apply(store, op, limit);
            match op
            case Retain(keys) => (k in after <==> k in store && k in keys) && (k in after ==> after[k] == store[k])
            case Live(c, r) =>
              if k == c.key then Series(after, k) == Handle(Series(store, k), c, r, limit).0
              else (k in after <==> k in store) && Series(after, k) == Series(store, k)
            case Bootstrap(key, ordered) =>
              if k == key && k !in store && k.step >= 1 && History(ordered, k.step)
              then k in after && exists u :: Kept(ordered, u, k.step) && after[k] == LastN(u, limit)
              else (k in after <==> k in store) && Series(after, k) == Series(store, k)
  {
    match op
    case Bootstrap(key, ordered) =>
      if key.step >= 1 {
        ValidatedIff(ordered, key.step);
      }
      hide Validated, History, LastN;
    case _ =>
      hide Handle;
  }

  /** The candles of a history, each once and one interval apart. */
  ghost predicate Kept(ordered: seq<Candle>, u: seq<Candle>, step: nat) {
    Contiguous(u, step) && forall c :: c in u <==> c in ordered
  }

  /** Every candle of every series stands on its interval's grid. */
  ghost predicate AllOnGrid(store: Store) {
    forall k, i :: k in store && 0 <= i < |store[k]| ==> k.step >= 1 && Multiple(store[k][i].open, k.step)
  }

  lemma StoreOnGrid(store: Store)
    requires StoreOk(store)
    ensures AllOnGrid(store)
  {
    forall k, i | k in store && 0 <= i < |store[k]|
      ensures k.step >= 1 && Multiple(store[k][i].open, k.step)
    {
      assert SeriesOk(store[k], k.step);
      SeriesOnGrid(store[k], k.step, i);
    }
  }

  /**
   Over every sequence of bootstraps, live candles with arbitrary recovery answers and rotations, every
   stored series stays contiguous and on the grid, provided the exchange's live candles are on it.
   */
  lemma {:induction false} StoredSeriesStayContiguous(ops: seq<Op>, limit: nat)
    requires limit >= 2 && forall i :: 0 <= i < |ops| ==> Aligned(ops[i])
    ensures StoreOk(Run(ops, limit)) && AllOnGrid(Run(ops, limit))
  {
    hide Apply, Aligned;
    if ops != [] {
      StoredSeriesStayContiguous(ops[..|ops| - 1], limit);
      hide AllOnGrid;
      ApplyKeepsStore(Run(ops[..|ops| - 1], limit), ops[|ops| - 1], limit);
      StoreOnGrid(Run(ops, limit));
    }
  }

  // ---------------------------------------------------------------- paging the missing range

  const MAX_PAGES := 100

  /** An honest endpoint: the grid candles from the cursor up to the end, as many as fit on a page. */
  ghost predicate Honest(page: seq<Candle>, cursor: int, gap: Gap, limit: nat) {
    && page != [] && |page| <= limit && page[0].open == cursor
    && Contiguous(page, gap.key.step)
    && LastOpen(page) <= gap.end && (|page| == limit || LastOpen(page) + gap.key.step > gap.end)
    && forall i :: 0 <= i < |page| ==>
         page[i].key == gap.key && page[i].isClosed && page[i].close == page[i].open + gap.key.step - 1
  }

  /** At most n pages from the cursor on, stopping at an empty page, a stuck cursor or the end. */
  function Pages(gap: Gap, fetch: int -> seq<Candle>, cursor: int, n: nat): seq<Candle>
    decreases n
  {
    if n == 0 || fetch(cursor) == [] then []
    else
      var next := LastOpen(fetch(cursor)) + gap.key.step;
      if next <= cursor || next > gap.end then fetch(cursor) else fetch(cursor) + Pages(gap, fetch, next, n - 1)
  }

  function RequiredPages(gap: Gap, limit: nat): int
    requires gap.key.step >= 1 && limit >= 1
  {
    ((gap.end - gap.start + 1) / gap.key.step + limit - 1) / limit
  }

  function FetchRange(gap: Gap, fetch: int -> seq<Candle>, limit: nat): seq<Candle>
    requires gap.key.step >= 1 && limit >= 1
  {
    var required := RequiredPages(gap, limit);
    if required > MAX_PAGES || required < 0 then [] else Pages(gap, fetch, gap.start, required)
  }

  lemma {:induction false} OpensAlong(s: seq<Candle>, step: nat)
    requires s != [] && Contiguous(s, step)
    ensures LastOpen(s) == s[0].open + (|s| - 1) * step
  {
    if |s| > 1 {
      var front := s[..|s| - 1];
      OpensAlong(front, step);
      assert (|s| - 1) * step == (|s| - 2) * step + step;
    }
  }

  lemma JoinPages(a: seq<Candle>, b: seq<Candle>, start: Gap, rest: Gap)
    requires a != [] && Contiguous(a, start.key.step) && a[0].open == start.start
    requires Acceptable(b, rest) && rest == start.(start := LastOpen(a) + start.key.step)
    requires forall i :: 0 <= i < |a| ==>
      a[i].key == start.key && a[i].isClosed && a[i].close == a[i].open + start.key.step - 1
    ensures Acceptable(a + b, start)
  {
    var s := a + b;
    assert forall i :: 0 < i < |s| ==> s[i].open == s[i - 1].open + start.key.step;
  }

  /** At every cursor a whole number of intervals later, up to the end, the page is honest. */
  ghost predicate HonestFrom(fetch: int -> seq<Candle>, cursor: int, gap: Gap, limit: nat)
    requires gap.key.step >= 1
  {
    forall t :: cursor <= t <= gap.end && Multiple(t - cursor, gap.key.step) ==> Honest(fetch(t), t, gap, limit)
  }

  lemma HonestLater(fetch: int -> seq<Candle>, cursor: int, p: nat, gap: Gap, limit: nat)
    requires gap.key.step >= 1 && HonestFrom(fetch, cursor, gap, limit)
    ensures HonestFrom(fetch, cursor + p * gap.key.step, gap, limit)
  {
    var step := gap.key.step;
    var next := cursor + p * step;
    MultipleOfProduct(p, step);
    assert p * step >= 0;
    forall t | next <= t <= gap.end && Multiple(t - next, step)
      ensures Honest(fetch(t), t, gap, limit)
    {
      SumOfMultiples(t - next, next - cursor, step);
    }
  }

  /** m intervals are left from the cursor, and n pages of `limit` have room for them. */
  lemma {:induction false} HonestPagesSpan(gap: Gap, fetch: int -> seq<Candle>, cursor: int, n: nat, m: nat, limit: nat)
    requires gap.key.step >= 1 && limit >= 1 && 1 <= m <= n * limit
    requires gap.end + 1 == cursor + m * gap.key.step
    requires HonestFrom(fetch, cursor, gap, limit)
    ensures Acceptable(Pages(gap, fetch, cursor, n), gap.(start := cursor))
    decreases n
  {
    var step, page := gap.key.step, fetch(cursor);
    var p := |page|;
    ProductAtLeast(m, step);
    StepIsMultiple(step);
    assert Honest(page, cursor, gap, limit);
    OpensAlong(page, step);
    PageArithmetic(cursor, m, n, p, step, limit);
    var next := LastOpen(page) + step;
    HonestLater(fetch, cursor, p, gap, limit);
    hide Honest, HonestFrom;
    if next <= gap.end {
      HonestPagesSpan(gap, fetch, next, n - 1, m - p, limit);
      JoinPages(page, Pages(gap, fetch, next, n - 1), gap.(start := cursor), gap.(start := next));
    }
  }

  lemma PageArithmetic(cursor: int, m: nat, n: nat, p: nat, step: nat, limit: nat)
    requires step >= 1 && 1 <= p <= limit && 1 <= m <= n * limit
    ensures cursor + (p - 1) * step + step == cursor + p * step > cursor
    ensures cursor + p * step < cursor + m * step ==> m - p >= 1
    ensures cursor + m * step == cursor + p * step + (m - p) * step
    ensures p == limit ==> m - p <= (n - 1) * limit
  {
    assert (p - 1) * step + step == p * step;
    ProductAtLeast(p, step);
    assert (m - p) * step == m * step - p * step;
    if p * step < m * step {
      PositiveFactor(m - p, step);
    }
    assert (n - 1) * limit == n * limit - limit;
  }

  lemma PositiveFactor(k: int, step: nat)
    requires step >= 1 && k * step >= 1
    ensures k >= 1
  {
    ProductAtLeast(if k <= -1 then -k else 1, step);
  }

  lemma CeilingCovers(m: nat, limit: nat)
    requires limit >= 1
    ensures m <= ((m + limit - 1) / limit) * limit
  {
    var d := m + limit - 1;
    assert d == (d / limit) * limit + d % limit;
  }

  /**
   With honest pages the paginated loop returns exactly the range that the runtime accepts, for every
   gap before an aligned candle that fits in the page budget; past the budget it returns nothing.
   */
  lemma HonestPagesAreAccepted(gap: Gap, fetch: int -> seq<Candle>, limit: nat)
    requires gap.key.step >= 1 && limit >= 1 && gap.start <= gap.end
    requires Multiple(gap.end + 1 - gap.start, gap.key.step)
    requires HonestFrom(fetch, gap.start, gap, limit)
    ensures Acceptable(SortBy(FetchRange(gap, fetch, limit), OpenOf), gap) <==> RequiredPages(gap, limit) <= MAX_PAGES
    ensures RequiredPages(gap, limit) <= MAX_PAGES ==> SortBy(FetchRange(gap, fetch, limit), OpenOf) == FetchRange(gap, fetch, limit)
  {
    var step, d := gap.key.step, gap.end + 1 - gap.start;
    var m := d / step;
    assert d == m * step;
    PositiveFactor(m, step);
    var n := RequiredPages(gap, limit);
    CeilingCovers(m, limit);
    assert n >= 1 by { PositiveFactor(n, limit); }
    if n <= MAX_PAGES {
      HonestPagesSpan(gap, fetch, gap.start, n, m, limit);
      assert gap.(start := gap.start) == gap;
      AcceptableIsSorted(FetchRange(gap, fetch, limit), gap);
      SortedIsFixed(FetchRange(gap, fetch, limit), OpenOf);
    }
  }

  /** A range of whole intervals fits in the budget exactly when a hundred full pages hold them all. */
  lemma BudgetIff(gap: Gap, limit: nat)
    requires gap.key.step >= 1 && limit >= 1 && gap.start <= gap.end && Multiple(gap.end + 1 - gap.start, gap.key.step)
    ensures RequiredPages(gap, limit) <= MAX_PAGES <==> gap.end + 1 - gap.start <= 100 * limit * gap.key.step
  {
    var step, d := gap.key.step, gap.end + 1 - gap.start;
    var m := d / step;
    assert d == m * step;
    PositiveFactor(m, step);
    CeilingWithin(m, limit, 100);
    if m <= 100 * limit {
      Monotone(m, 100 * limit, step);
    } else {
      Monotone(100 * limit + 1, m, step);
      assert (100 * limit + 1) * step == 100 * limit * step + step;
    }
  }

  lemma CeilingWithin(m: nat, limit: nat, k: nat)
    requires limit >= 1
    ensures (m + limit - 1) / limit <= k <==> m <= k * limit
  {
    var n := (m + limit - 1) / limit;
    CeilingCovers(m, limit);
    var d := m + limit - 1;
    assert d == n * limit + d % limit;
    if n <= k {
      Monotone(n, k, limit);
    } else {
      Monotone(k + 1, n, limit);
      assert (k + 1) * limit == k * limit + limit;
    }
  }

  /** What an exchange serves from t on: its grid candles up to the end of the range, one page of them. */
  function Served(gap: Gap, body: int -> int, limit: nat, t: int): seq<Candle>
    requires gap.key.step >= 1
  {
    var step := gap.key.step;
    var first := t + (-t) % step;
    var left := if first > gap.end then 0 else (gap.end - first) / step + 1;
    seq(if left < limit then left else limit, i requires 0 <= i =>
      Candle(gap.key, first + i * step, first + i * step + step - 1, true, body(first + i * step)))
  }

  lemma ServedOnGrid(gap: Gap, body: int -> int, limit: nat, t: int, i: nat)
    requires gap.key.step >= 1 && i < |Served(gap, body, limit, t)|
    ensures Multiple(Served(gap, body, limit, t)[i].open, gap.key.step)
  {
    var step := gap.key.step;
    var first := t + (-t) % step;
    assert -t == (-t) / step * step + (-t) % step;
    assert first == -((-t) / step) * step;
    MultipleOfProduct(-((-t) / step), step);
    MultipleOfProduct(i, step);
    SumOfMultiples(first, i * step, step);
  }

  lemma ServedContiguous(gap: Gap, body: int -> int, limit: nat, t: int)
    requires gap.key.step >= 1
    ensures Contiguous(Served(gap, body, limit, t), gap.key.step)
  {
    var s, step := Served(gap, body, limit, t), gap.key.step;
    forall i | 0 < i < |s|
      ensures s[i].open == s[i - 1].open + step
    {
      assert i * step == (i - 1) * step + step;
    }
  }

  lemma ServedIsHonest(gap: Gap, body: int -> int, limit: nat, t: int)
    requires gap.key.step >= 1 && limit >= 1 && t <= gap.end && Multiple(t, gap.key.step)
    ensures Honest(Served(gap, body, limit, t), t, gap, limit)
  {
    var step, page := gap.key.step, Served(gap, body, limit, t);
    var left := (gap.end - t) / step + 1;
    ServedFrom(gap, body, limit, t);
    ServedContiguous(gap, body, limit, t);
    hide Served;
    OpensAlong(page, step);
    IntervalsLeft(gap.end - t, step);
    Monotone(|page| - 1, left - 1, step);
    assert |page| == left ==> LastOpen(page) == t + (left - 1) * step;
    hide Contiguous;
  }

  /** Served from a grid point, a page starts there and holds as many intervals as are left, or its limit. */
  lemma ServedFrom(gap: Gap, body: int -> int, limit: nat, t: int)
    requires gap.key.step >= 1 && limit >= 1 && t <= gap.end && Multiple(t, gap.key.step)
    ensures var page, left := Served(gap, body, limit, t), (gap.end - t) / gap.key.step + 1;
            && left >= 1 && |page| == (if left < limit then left else limit) && page[0].open == t
            && forall i :: 0 <= i < |page| ==>
                 page[i].key == gap.key && page[i].isClosed && page[i].close == page[i].open + gap.key.step - 1
  {
    StepIsMultiple(gap.key.step);
    DifferenceOfMultiples(0, t, gap.key.step);
    hide Multiple;
  }

  lemma IntervalsLeft(d: nat, step: nat)
    requires step >= 1
    ensures var left := d / step + 1; (left - 1) * step <= d < (left - 1) * step + step
  {
    assert d == (d / step) * step + d % step;
  }

  lemma Monotone(a: int, b: int, step: nat)
    requires a <= b
    ensures a * step <= b * step
  {
    assert (b - a) * step >= 0;
    assert (b - a) * step == b * step - a * step;
  }

  /** The REST client drops candles that have not closed before the local clock. */
  function ClosedBefore(page: seq<Candle>, now: int): seq<Candle> {
    if page == [] then []
    else ClosedBefore(page[..|page| - 1], now) + if page[|page| - 1].close < now then [page[|page| - 1]] else []
  }

  /** The page the scanner gets when it asks from t on, its clock then reading clock(t). */
  function Klines(gap: Gap, body: int -> int, limit: nat, clock: int -> int, t: int): seq<Candle>
    requires gap.key.step >= 1
  {
    ClosedBefore(Served(gap, body, limit, t), clock(t))
  }

  lemma {:induction false} AllClosed(page: seq<Candle>, now: int)
    requires forall i :: 0 <= i < |page| ==> page[i].close < now
    ensures ClosedBefore(page, now) == page
  {
    if page != [] {
      AllClosed(page[..|page| - 1], now);
    }
  }

  lemma {:induction false} OnlyClosed(page: seq<Candle>, now: int, x: Candle)
    requires x in ClosedBefore(page, now)
    ensures x in page && x.close < now
  {
    var front, last := page[..|page| - 1], page[|page| - 1];
    assert page == front + [last];
    if x in ClosedBefore(front, now) {
      OnlyClosed(front, now, x);
    }
  }

  /** Candles of a range that ends just before a grid point have closed by its end. */
  lemma ServedCloses(gap: Gap, body: int -> int, limit: nat, t: int, i: nat)
    requires gap.key.step >= 1 && Multiple(gap.end + 1, gap.key.step) && i < |Served(gap, body, limit, t)|
    ensures Served(gap, body, limit, t)[i].close <= gap.end
  {
    var step, c := gap.key.step, Served(gap, body, limit, t)[i];
    ServedOnGrid(gap, body, limit, t, i);
    ServedWithin(gap, body, limit, t, i);
    DifferenceOfMultiples(gap.end + 1, c.open, step);
    hide Served;
    if c.open + step > gap.end + 1 {
      SmallMultiple(gap.end + 1 - c.open, step);
    }
  }

  lemma ServedWithin(gap: Gap, body: int -> int, limit: nat, t: int, i: nat)
    requires gap.key.step >= 1 && i < |Served(gap, body, limit, t)|
    ensures var c := Served(gap, body, limit, t)[i]; c.open <= gap.end && c.close == c.open + gap.key.step - 1
  {
    var step := gap.key.step;
    var first := t + (-t) % step;
    IntervalsLeft(gap.end - first, step);
    Monotone(i, (gap.end - first) / step, step);
  }

  /** With a clock past the end of the range the filter drops nothing. */
  lemma ClockPastEnd(gap: Gap, body: int -> int, limit: nat, clock: int -> int, t: int)
    requires gap.key.step >= 1 && Multiple(gap.end + 1, gap.key.step) && clock(t) > gap.end
    ensures Klines(gap, body, limit, clock, t) == Served(gap, body, limit, t)
  {
    var page := Served(gap, body, limit, t);
    forall i | 0 <= i < |page|
      ensures page[i].close < clock(t)
    {
      ServedCloses(gap, body, limit, t, i);
    }
    hide Served;
    AllClosed(page, clock(t));
  }

  /** Every candle of a paged range came from some page, asked for within the range. */
  lemma {:induction false} PagesComeFromFetch(gap: Gap, fetch: int -> seq<Candle>, cursor: int, n: nat, x: Candle)
    requires x in Pages(gap, fetch, cursor, n) && gap.start <= cursor <= gap.end
    ensures exists t :: gap.start <= t <= gap.end && x in fetch(t)
    decreases n
  {
    hide Pages;
    if n == 0 {
      NoPages(gap, fetch, cursor);
    } else {
      PagesStep(gap, fetch, cursor, n);
      if x !in fetch(cursor) {
        PagesComeFromFetch(gap, fetch, LastOpen(fetch(cursor)) + gap.key.step, n - 1, x);
      }
    }
  }

  /** A range that the runtime accepts ends with a candle that closed at or after the end of the gap. */
  lemma AcceptedReachesEnd(candles: seq<Candle>, gap: Gap) returns (x: Candle)
    requires Acceptable(SortBy(candles, OpenOf), gap)
    ensures x in candles && x.close >= gap.end
  {
    var s := SortBy(candles, OpenOf);
    hide SortBy;
    x := s[|s| - 1];
    SortByKeepsMembers(candles, OpenOf, x);
  }

  /**
   An exchange that serves the candles of its own time grid, through a client that drops what has not
   closed by the local clock: the gap between two of its candles is recovered if it fits in the page
   budget and the clock is past the gap's end, and only if it fits and some reading of the clock is.
   */
  lemma ExchangeGapIsRecovered(gap: Gap, body: int -> int, limit: nat, clock: int -> int)
    requires gap.key.step >= 1 && limit >= 1 && gap.start <= gap.end
    requires Multiple(gap.start, gap.key.step) && Multiple(gap.end + 1, gap.key.step)
    ensures var fetch := (t: int) => Klines(gap, body, limit, clock, t);
            var accepted := Acceptable(SortBy(FetchRange(gap, fetch, limit), OpenOf), gap);
            && (RequiredPages(gap, limit) <= MAX_PAGES && ClockPast(clock, gap) ==> accepted)
            && (accepted ==> RequiredPages(gap, limit) <= MAX_PAGES && exists t :: gap.start <= t <= gap.end && clock(t) > gap.end)
    ensures forall t, i :: 0 <= i < |Served(gap, body, limit, t)| ==> Multiple(Served(gap, body, limit, t)[i].open, gap.key.step)
  {
    forall t, i | 0 <= i < |Served(gap, body, limit, t)|
      ensures Multiple(Served(gap, body, limit, t)[i].open, gap.key.step)
    {
      ServedOnGrid(gap, body, limit, t, i);
    }
    hide Served, Multiple, Acceptable, Klines, Pages, ClockPast, SortBy;
    var fetch := (t: int) => Klines(gap, body, limit, clock, t);
    if ClockPast(clock, gap) {
      GapIsRecovered(gap, body, limit, clock);
    }
    if Acceptable(SortBy(FetchRange(gap, fetch, limit), OpenOf), gap) {
      RecoveryNeedsClock(gap, body, limit, clock);
    }
  }

  /** The last missing candle has closed before every reading of the clock. */
  ghost predicate ClockPast(clock: int -> int, gap: Gap) {
    forall t :: gap.start <= t <= gap.end ==> clock(t) > gap.end
  }

  lemma GapIsRecovered(gap: Gap, body: int -> int, limit: nat, clock: int -> int)
    requires gap.key.step >= 1 && limit >= 1 && gap.start <= gap.end && ClockPast(clock, gap)
    requires Multiple(gap.start, gap.key.step) && Multiple(gap.end + 1, gap.key.step)
    ensures var fetch := (t: int) => Klines(gap, body, limit, clock, t);
            Acceptable(SortBy(FetchRange(gap, fetch, limit), OpenOf), gap) <==> RequiredPages(gap, limit) <= MAX_PAGES
  {
    var step := gap.key.step;
    var fetch := (t: int) => Klines(gap, body, limit, clock, t);
    DifferenceOfMultiples(gap.end + 1, gap.start, step);
    hide Served, Klines, Honest;
    forall t | gap.start <= t <= gap.end && Multiple(t - gap.start, step)
      ensures Honest(fetch(t), t, gap, limit)
    {
      SumOfMultiples(t - gap.start, gap.start, step);
      ClockPastEnd(gap, body, limit, clock, t);
      ServedIsHonest(gap, body, limit, t);
    }
    HonestPagesAreAccepted(gap, fetch, limit);
  }

  lemma RecoveryNeedsClock(gap: Gap, body: int -> int, limit: nat, clock: int -> int)
    requires gap.key.step >= 1 && limit >= 1 && gap.start <= gap.end
    requires Acceptable(SortBy(FetchRange(gap, (t: int) => Klines(gap, body, limit, clock, t), limit), OpenOf), gap)
    ensures RequiredPages(gap, limit) <= MAX_PAGES && exists t :: gap.start <= t <= gap.end && clock(t) > gap.end
  {
    var fetch := (t: int) => Klines(gap, body, limit, clock, t);
    hide Served, Pages, Acceptable, SortBy;
    var x := AcceptedReachesEnd(FetchRange(gap, fetch, limit), gap);
    PagesComeFromFetch(gap, fetch, gap.start, RequiredPages(gap, limit), x);
    var t :| gap.start <= t <= gap.end && x in fetch(t);
    OnlyClosed(Served(gap, body, limit, t), clock(t), x);
  }

  /**
   Scanner and runtime together. Whatever the clock reads at each page, the series stays contiguous and a
   closed candle on the grid that arrives after an outage is stored or held. It is stored if the missing
   range fits in the page budget and the clock is past its end at every page, and only if it fits and
   some reading is.
   */
  lemma OutageHeals(s: seq<Candle>, c: Candle, body: int -> int, clock: int -> int, pageLimit: nat, limit: nat)
    requires limit >= 2 && pageLimit >= 1 && s != [] && SeriesOk(s, c.key.step)
    requires c.isClosed && Multiple(c.open, c.key.step) && c.open > LastOpen(s) + c.key.step
    ensures var gap := DetectGap(s, c).value;
            var fetch := (t: int) => Klines(gap, body, pageLimit, clock, t);
            var (t, outcome) := Handle(s, c, Page(FetchRange(gap, fetch, pageLimit), None), limit);
            && SeriesOk(t, c.key.step)
            && (RequiredPages(gap, pageLimit) <= MAX_PAGES && ClockPast(clock, gap) ==> outcome == Stored)
            && (outcome == Stored ==> RequiredPages(gap, pageLimit) <= MAX_PAGES && exists u :: gap.start <= u <= gap.end && clock(u) > gap.end)
            && (outcome == Stored ==> t != [] && LastOpen(t) == c.open)
            && (outcome != Stored ==> outcome == Held && t == s)
  {
    var step, gap := c.key.step, DetectGap(s, c).value;
    var fetch := (t: int) => Klines(gap, body, pageLimit, clock, t);
    StepIsMultiple(step);
    SumOfMultiples(step, LastOpen(s), step);
    hide Acceptable, FetchRange, Multiple, Klines, Served, AddTo, Contiguous, ClockPast, SortBy;
    ExchangeGapIsRecovered(gap, body, pageLimit, clock);
    OutageOutcome(s, c, FetchRange(gap, fetch, pageLimit), limit);
  }

  /** A candle across a gap is stored exactly when the range fetched for it is acceptable. */
  lemma OutageOutcome(s: seq<Candle>, c: Candle, fetched: seq<Candle>, limit: nat)
    requires limit >= 2 && s != [] && SeriesOk(s, c.key.step)
    requires c.isClosed && Multiple(c.open, c.key.step) && c.open > LastOpen(s) + c.key.step
    ensures var gap := DetectGap(s, c).value;
            var (t, outcome) := Handle(s, c, Page(fetched, None), limit);
            && SeriesOk(t, c.key.step)
            && (outcome == Stored <==> Acceptable(SortBy(fetched, OpenOf), gap))
            && (outcome == Stored ==> t != [] && LastOpen(t) == c.open)
            && (outcome != Stored ==> outcome == Held && t == s)
  {
    var gap, r := DetectGap(s, c).value, Page(fetched, None);
    HandleKeepsSeries(s, c, r, limit);
    HandleAcrossGap(s, c, r, limit);
    RecoverContiguous(s, gap, r, limit);
    hide Multiple, SeriesOk, Contiguous, SortBy, Append, Acceptable;
    if Acceptable(SortBy(fetched, OpenOf), gap) {
      var t := RecoverGap(s, gap, r, limit).0;
      AddAfterGap(t, c, limit);
    }
  }

  lemma AddAfterGap(t: seq<Candle>, c: Candle, limit: nat)
    requires c.isClosed && t != [] && LastOpen(t) < c.open
    ensures AddTo(t, c, limit).Inserted?
  {
    NewerIsAppended(t, c, limit);
  }

  /** With one reading of the clock the condition is exact: in budget, and the last missing candle closed before it. */
  lemma OutageHealsIff(s: seq<Candle>, c: Candle, body: int -> int, now: int, pageLimit: nat, limit: nat)
    requires limit >= 2 && pageLimit >= 1 && s != [] && SeriesOk(s, c.key.step)
    requires c.isClosed && Multiple(c.open, c.key.step) && c.open > LastOpen(s) + c.key.step
    ensures var gap := DetectGap(s, c).value;
            var clock := (t: int) => now;
            var fetch := (t: int) => Klines(gap, body, pageLimit, clock, t);
            Handle(s, c, Page(FetchRange(gap, fetch, pageLimit), None), limit).1 == Stored
            <==> RequiredPages(gap, pageLimit) <= MAX_PAGES && gap.end < now
  {
    hide Handle, FetchRange, Klines, SeriesOk, Multiple;
    OutageHeals(s, c, body, (t: int) => now, pageLimit, limit);
  }

  lemma {:induction false} SpanIncreases(s: seq<Candle>, gap: Gap, i: nat, j: nat)
    requires Spans(s, gap) && i < j < |s|
    ensures s[i].open <= s[j].open
    decreases j
  {
    if i < j - 1 {
      SpanIncreases(s, gap, i, j - 1);
    }
  }

  lemma AcceptableIsSorted(s: seq<Candle>, gap: Gap)
    requires Acceptable(s, gap)
    ensures SortedBy(s, OpenOf)
  {
    forall i, j | 0 <= i < j < |s|
      ensures OpenOf(s[i]) <= OpenOf(s[j])
    {
      SpanIncreases(s, gap, i, j);
    }
  }

  // ---------------------------------------------------------------- as it runs

  method FetchMissing(gap: Gap, fetch: int -> seq<Candle>, limit: nat) returns (recovered: seq<Candle>)
    requires gap.key.step >= 1 && limit >= 1
    ensures recovered == FetchRange(gap, fetch, limit)
  {
    var expected := (gap.end - gap.start + 1) / gap.key.step;
    var required := (expected + limit - 1) / limit;
    if required > MAX_PAGES {
      return [];
    }
    var budget: nat := if required < 0 then 0 else required;
    NoPages(gap, fetch, gap.start);
    assert FetchRange(gap, fetch, limit) == Pages(gap, fetch, gap.start, budget);
    recovered := FetchPages(gap, fetch, budget);
  }

  lemma NoPages(gap: Gap, fetch: int -> seq<Candle>, cursor: int)
    ensures Pages(gap, fetch, cursor, 0) == []
  {
  }

  /** The loop over pages, moving the cursor past the last candle of each. */
  method FetchPages(gap: Gap, fetch: int -> seq<Candle>, budget: nat) returns (recovered: seq<Candle>)
    ensures recovered == Pages(gap, fetch, gap.start, budget)
  {
    hide Pages;
    recovered := [];
    var cursor := gap.start;
    for k := 0 to budget
      invariant Pages(gap, fetch, gap.start, budget) == recovered + Pages(gap, fetch, cursor, budget - k)
    {
      PagesStep(gap, fetch, cursor, budget - k);
      var page := fetch(cursor);
      if page == [] {
        return;
      }
      var next := LastOpen(page) + gap.key.step;
      if next <= cursor || next > gap.end {
        recovered := recovered + page;
        return;
      }
      ghost var rest := Pages(gap, fetch, next, budget - k - 1);
      assert recovered + (page + rest) == recovered + page + rest;
      recovered := recovered + page;
      cursor := next;
    }
    NoPages(gap, fetch, cursor);
  }

  lemma PagesStep(gap: Gap, fetch: int -> seq<Candle>, cursor: int, n: nat)
    requires n >= 1
    ensures var page := fetch(cursor);
            Pages(gap, fetch, cursor, n) ==
            if page == [] then []
            else if LastOpen(page) + gap.key.step <= cursor || LastOpen(page) + gap.key.step > gap.end then page
            else page + Pages(gap, fetch, LastOpen(page) + gap.key.step, n - 1)
  {
  }

  lemma StartAppend(s: seq<Candle>, more: seq<Candle>, limit: nat)
    ensures Append(s, more[..0], limit) == s
  {
  }

  lemma AppendStep(s: seq<Candle>, more: seq<Candle>, i: nat, limit: nat)
    requires i < |more| && limit >= 1
    ensures var t := Append(s, more[..i + 1], limit);
            t == LastN(Append(s, more[..i], limit) + [more[i]], limit) && t != [] && t[|t| - 1] == more[i]
  {
    assert more[..i + 1][..i] == more[..i];
  }

  /** The series of one key, as the runtime updates it. */
  class LiveSeries {
    const limit: nat
    var candles: seq<Candle>

    constructor (limit: nat)
      ensures this.limit == limit && candles == []
    {
      this.limit, this.candles := limit, [];
    }

    /** Adds recovered candles one by one; a failing write stops it after its candle was stored. */
    method AddRecovered(ordered: seq<Candle>, gap: Gap, failsAt: Option<nat>) returns (complete: bool)
      requires limit >= 1 && candles != [] && gap.key.step >= 1 && Acceptable(ordered, gap)
      requires gap.start == LastOpen(candles) + gap.key.step
      modifies this
      ensures complete == !(failsAt.Some? && failsAt.value < |ordered|)
      ensures candles == Append(old(candles), if complete then ordered else ordered[..failsAt.value + 1], limit)
    {
      hide AddTo, Append, LastN;
      StartAppend(candles, ordered, limit);
      for i := 0 to |ordered|
        invariant candles != [] && candles == Append(old(candles), ordered[..i], limit)
        invariant failsAt.Some? ==> i <= failsAt.value
        invariant LastOpen(candles) == if i == 0 then old(LastOpen(candles)) else ordered[i - 1].open
      {
        assert ordered[..i + 1][..i] == ordered[..i];
        NewerIsAppended(candles, ordered[i], limit);
        AppendStep(old(candles), ordered, i, limit);
        candles := AddTo(candles, ordered[i], limit).series;
        if failsAt == Some(i) {
          return false;
        }
      }
      assert ordered[..|ordered|] == ordered;
      complete := true;
    }

    method HandleCandle(c: Candle, r: Recovery) returns (outcome: Handled)
      requires limit >= 1 && c.key.step >= 1
      modifies this
      ensures (candles, outcome) == Handle(old(candles), c, r, limit)
    {
      hide SortBy;
      if !c.isClosed || (candles != [] && c.open < LastOpen(candles)) {
        return Ignored;
      }
      var gap := DetectGap(candles, c);
      if gap.Some? {
        if r.NoAnswer? {
          return Held;
        }
        var ordered := SortBy(r.candles, OpenOf);
        if !Acceptable(ordered, gap.value) {
          return Held;
        }
        var complete := AddRecovered(ordered, gap.value, r.failsAt);
        if !complete {
          return Raised;
        }
      }
      match AddTo(candles, c, limit) {
        case Inserted(u) =>
          candles := u;
          outcome := Stored;
        case Unchanged => outcome := Ignored;
        case Conflict => outcome := Raised;
      }
    }
  }
}
