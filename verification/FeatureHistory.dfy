/**
 The runtime's bounded feature history as a cache of the full, last-write-wins history, and the
 selection of higher-timeframe context from it.
 */
module FeatureHistory {
  import opened Prelude
  import opened Sorting

  const HISTORY_LIMIT := 4

  datatype Key = Key(symbol: string, interval: nat)
  datatype Feature = Feature(key: Key, time: int, payload: int)

  function TimeOf(f: Feature): int { f.time }

  ghost predicate Increasing(h: seq<Feature>) {
    forall i, j :: 0 <= i < j < |h| ==> h[i].time < h[j].time
  }

  // ---------------------------------------------------------------- storing

  function Others(h: seq<Feature>, time: int): seq<Feature> {
    if h == [] then []
    else Others(h[..|h| - 1], time) + if h[|h| - 1].time != time then [h[|h| - 1]] else []
  }

  /** The bounded history after storing f: other times kept, f added, sorted, cut to the newest four. */
  function Stored(h: seq<Feature>, f: Feature): seq<Feature> {
    LastN(SortBy(Others(h, f.time) + [f], TimeOf), HISTORY_LIMIT)
  }

  /** The unbounded reference: one entry per time, the last one written, in time order. */
  function Put(full: seq<Feature>, f: Feature): seq<Feature> {
    if full == [] then [f]
    else
      var front, last := full[..|full| - 1], full[|full| - 1];
      if last.time < f.time then full + [f]
      else if last.time == f.time then front + [f]
      else Put(front, f) + [last]
  }

  /** What the recursions over a history do with its last entry. */
  lemma PutSnoc(front: seq<Feature>, last: Feature, f: Feature)
    ensures Put(front + [last], f) ==
            if last.time < f.time then front + [last] + [f] else if last.time == f.time then front + [f] else Put(front, f) + [last]
  {
    assert (front + [last])[..|front|] == front;
  }

  lemma IncreasingSnoc(front: seq<Feature>, last: Feature)
    ensures Increasing(front + [last]) <==> Increasing(front) && forall x :: x in front ==> x.time < last.time
  {
    var h := front + [last];
    if Increasing(h) {
      forall i, j | 0 <= i < j < |front|
        ensures front[i].time < front[j].time
      {
        assert h[i].time < h[j].time;
      }
      forall x | x in front
        ensures x.time < last.time
      {
        var i :| 0 <= i < |front| && front[i] == x;
        assert h[i].time < h[|front|].time;
      }
    } else if forall x :: x in front ==> x.time < last.time {
      var i, j :| 0 <= i < j < |h| && h[i].time >= h[j].time;
      assert h[i] in front;
      assert j < |front| && front[i].time >= front[j].time;
    }
  }

  lemma {:induction false} PutMembers(full: seq<Feature>, f: Feature, x: Feature)
    requires Increasing(full)
    ensures x in Put(full, f) <==> x == f || (x in full && x.time != f.time)
  {
    if full != [] {
      hide Put, Increasing;
      var front, last := full[..|full| - 1], full[|full| - 1];
      assert full == front + [last];
      IncreasingSnoc(front, last);
      PutSnoc(front, last, f);
      PutMembers(front, f, x);
    }
  }

  lemma {:induction false} PutIncreases(full: seq<Feature>, f: Feature)
    requires Increasing(full)
    ensures Increasing(Put(full, f))
  {
    if full != [] {
      hide Put, Increasing;
      var front, last := full[..|full| - 1], full[|full| - 1];
      assert full == front + [last];
      IncreasingSnoc(front, last);
      PutSnoc(front, last, f);
      PutIncreases(front, f);
      forall x | x in Put(front, f)
        ensures x == f || x in front
      {
        PutMembers(front, f, x);
      }
      IncreasingSnoc(Put(front, f), last);
      IncreasingSnoc(front, f);
      IncreasingSnoc(full, f);
    }
  }

  /** The reference is last-write-wins: f replaces the entry of its time and every other entry stays. */
  lemma PutIsLastWriteWins(full: seq<Feature>, f: Feature)
    requires Increasing(full)
    ensures Increasing(Put(full, f))
    ensures forall x :: x in Put(full, f) <==> x == f || (x in full && x.time != f.time)
  {
    hide Put, Increasing;
    PutIncreases(full, f);
    forall x
      ensures x in Put(full, f) <==> x == f || (x in full && x.time != f.time)
    {
      PutMembers(full, f, x);
    }
  }

  lemma LastNIncreases(full: seq<Feature>, n: nat)
    requires Increasing(full)
    ensures Increasing(LastN(full, n))
    ensures n >= 1 && full != [] ==> LastN(full, n) != [] && LastN(full, n)[|LastN(full, n)| - 1] == full[|full| - 1]
  {
    if |full| > n {
      var r, d := full[|full| - n..], |full| - n;
      forall i, j | 0 <= i < j < |r|
        ensures r[i].time < r[j].time
      {
        assert r[i] == full[d + i] && r[j] == full[d + j];
      }
    }
  }

  lemma OthersSnoc(front: seq<Feature>, last: Feature, time: int)
    ensures Others(front + [last], time) == if last.time != time then Others(front, time) + [last] else Others(front, time)
  {
    assert (front + [last])[..|front|] == front;
  }

  lemma {:induction false} OthersBelow(h: seq<Feature>, time: int)
    requires forall x :: x in h ==> x.time < time
    ensures Others(h, time) == h
  {
    if h != [] {
      hide Others;
      var front, last := h[..|h| - 1], h[|h| - 1];
      assert h == front + [last];
      OthersSnoc(front, last, time);
      OthersBelow(front, time);
    } else {
      assert Others([], time) == [];
    }
  }

  lemma {:induction false} OthersSorted(h: seq<Feature>, time: int)
    requires Increasing(h)
    ensures SortedBy(Others(h, time), TimeOf) && forall x :: x in Others(h, time) ==> x in h
  {
    if h != [] {
      hide Others, Increasing;
      var front, last := h[..|h| - 1], h[|h| - 1];
      assert h == front + [last];
      IncreasingSnoc(front, last);
      OthersSnoc(front, last, time);
      OthersSorted(front, time);
      SortedSnoc(Others(front, time), last);
    } else {
      assert Others([], time) == [];
    }
  }

  lemma SortedSnoc(s: seq<Feature>, last: Feature)
    requires SortedBy(s, TimeOf) && forall x :: x in s ==> x.time < last.time
    ensures SortedBy(s + [last], TimeOf)
  {
    var t := s + [last];
    forall i, j | 0 <= i < j < |t|
      ensures TimeOf(t[i]) <= TimeOf(t[j])
    {
      assert t[i] == s[i] && s[i] in s;
      if j < |s| {
        assert TimeOf(s[i]) <= TimeOf(s[j]);
      }
    }
  }

  lemma InsertSnoc(s: seq<Feature>, last: Feature, f: Feature)
    ensures InsertBy(s + [last], f, TimeOf) == if last.time <= f.time then s + [last] + [f] else InsertBy(s, f, TimeOf) + [last]
  {
    assert (s + [last])[..|s|] == s;
  }

  lemma {:induction false} InsertIsPut(h: seq<Feature>, f: Feature)
    requires Increasing(h)
    ensures InsertBy(Others(h, f.time), f, TimeOf) == Put(h, f)
  {
    if h != [] {
      hide Others, Increasing, Put, InsertBy;
      var front, last := h[..|h| - 1], h[|h| - 1];
      assert h == front + [last];
      IncreasingSnoc(front, last);
      OthersSnoc(front, last, f.time);
      PutSnoc(front, last, f);
      if last.time < f.time {
        OthersBelow(front, f.time);
        InsertSnoc(front, last, f);
      } else if last.time == f.time {
        OthersBelow(front, f.time);
        InsertAtEnd(front, f);
      } else {
        InsertIsPut(front, f);
        InsertSnoc(Others(front, f.time), last, f);
      }
    } else {
      assert Others([], f.time) == [];
    }
  }

  lemma InsertAtEnd(s: seq<Feature>, f: Feature)
    requires forall x :: x in s ==> x.time <= f.time
    ensures InsertBy(s, f, TimeOf) == s + [f]
  {
    assert s != [] ==> s[|s| - 1] in s;
  }

  /** Rebuilding by sorting is the reference's insertion, cut to the newest four. */
  lemma StoredIsPut(h: seq<Feature>, f: Feature)
    requires Increasing(h)
    ensures Stored(h, f) == LastN(Put(h, f), HISTORY_LIMIT)
  {
    var others, pool := Others(h, f.time), Others(h, f.time) + [f];
    OthersSorted(h, f.time);
    hide Others, Put, Increasing;
    SortedIsFixed(others, TimeOf);
    assert pool[..|pool| - 1] == others && pool[|pool| - 1] == f;
    InsertIsPut(h, f);
  }

  lemma LastNSplit(s: seq<Feature>, x: Feature, n: nat)
    requires n >= 1
    ensures LastN(s + [x], n) == LastN(s, n - 1) + [x]
  {
  }

  /** Storing into the newest n entries and cutting is storing into everything and cutting. */
  lemma {:induction false} CutCommutesWithPut(full: seq<Feature>, f: Feature, n: nat)
    ensures LastN(Put(LastN(full, n), f), n) == LastN(Put(full, f), n)
    decreases |full|
  {
    if |full| <= n || n == 0 {
      NothingToCut(full, f, n);
    } else {
      hide LastN, Put;
      var front, last := full[..|full| - 1], full[|full| - 1];
      var cut := LastN(front, n - 1);
      assert full == front + [last];
      LastNSplit(front, last, n);
      PutSnoc(front, last, f);
      PutSnoc(cut, last, f);
      if last.time > f.time {
        CutCommutesWithPut(front, f, n - 1);
        LastNSplit(Put(cut, f), last, n);
        LastNSplit(Put(front, f), last, n);
      } else if last.time == f.time {
        LastNSplit(cut, f, n);
        LastNSplit(front, f, n);
        LastNTwice(front, n - 1);
      } else {
        LastNSplit(cut + [last], f, n);
        LastNSplit(full, f, n);
        LastNOfCut(full, n);
      }
    }
  }

  lemma LastNEnds(s: seq<Feature>, n: nat)
    ensures |s| <= n ==> LastN(s, n) == s
    ensures n == 0 ==> LastN(s, n) == []
  {
  }

  lemma LastNTwice(s: seq<Feature>, n: nat)
    ensures LastN(LastN(s, n), n) == LastN(s, n)
  {
  }

  lemma NothingToCut(full: seq<Feature>, f: Feature, n: nat)
    requires |full| <= n || n == 0
    ensures LastN(Put(LastN(full, n), f), n) == LastN(Put(full, f), n)
  {
    hide Put;
  }

  lemma LastNOfCut(s: seq<Feature>, n: nat)
    requires n >= 1
    ensures LastN(LastN(s, n), n - 1) == LastN(s, n - 1)
  {
  }

  // ---------------------------------------------------------------- context selection

  function Earlier(h: seq<Feature>, t: int): seq<Feature> {
    if h == [] then [] else Earlier(h[..|h| - 1], t) + if h[|h| - 1].time < t then [h[|h| - 1]] else []
  }

  /** The newest listed feature before the decision, if it is at most two intervals old. */
  function Select(h: seq<Feature>, t: int, interval: nat): Option<Feature> {
    var available := Earlier(h, t);
    if available == [] then None
    else
      var x := available[|available| - 1];
      if t - x.time <= 2 * interval then Some(x) else None
  }

  /** Independent reading of the selection: the greatest time before t, if recent. */
  ghost predicate Selects(full: seq<Feature>, t: int, interval: nat, r: Option<Feature>) {
    match r
    case Some(x) =>
      x in full && x.time < t && t - x.time <= 2 * interval && forall y :: y in full && y.time < t ==> y.time <= x.time
    case None => forall y :: y in full && y.time < t ==> t - y.time > 2 * interval
  }

  lemma EarlierSnoc(front: seq<Feature>, last: Feature, t: int)
    ensures Earlier(front + [last], t) == if last.time < t then Earlier(front, t) + [last] else Earlier(front, t)
  {
    assert (front + [last])[..|front|] == front;
  }

  lemma {:induction false} EarlierEndsWithGreatest(h: seq<Feature>, t: int)
    requires Increasing(h)
    ensures Earlier(h, t) == [] ==> forall x :: x in h ==> x.time >= t
    ensures var e := Earlier(h, t);
            e != [] ==> e[|e| - 1] in h && e[|e| - 1].time < t
    ensures var e := Earlier(h, t);
            e != [] ==> forall x :: x in h && x.time < t ==> x.time <= e[|e| - 1].time
  {
    if h != [] {
      hide Earlier, Increasing;
      var front, last := h[..|h| - 1], h[|h| - 1];
      assert h == front + [last];
      IncreasingSnoc(front, last);
      EarlierSnoc(front, last, t);
      EarlierEndsWithGreatest(front, t);
    } else {
      assert Earlier([], t) == [];
    }
  }

  lemma SelectIsGreatestEarlier(h: seq<Feature>, t: int, interval: nat)
    requires Increasing(h)
    ensures Selects(h, t, interval, Select(h, t, interval))
  {
    EarlierEndsWithGreatest(h, t);
  }

  lemma {:induction false} EarlierOfCut(full: seq<Feature>, t: int, n: nat)
    ensures var e, c := Earlier(full, t), Earlier(LastN(full, n), t);
            c != [] ==> e != [] && e[|e| - 1] == c[|c| - 1]
    decreases |full|
  {
    hide Earlier, LastN;
    if |full| <= n || n == 0 {
      LastNEnds(full, n);
      NothingEarlier([], t, 0);
    } else {
      var front, last := full[..|full| - 1], full[|full| - 1];
      assert full == front + [last];
      LastNSplit(front, last, n);
      EarlierOfCut(front, t, n - 1);
      EarlierSnoc(front, last, t);
      EarlierSnoc(LastN(front, n - 1), last, t);
    }
  }

  /**
   Context taken from the bounded history is strictly earlier than the decision, and is what the full
   history would give exactly when some retained entry is earlier, or no earlier entry is recent enough.
   */
  lemma SelectionMatchesIff(full: seq<Feature>, t: int, interval: nat)
    requires Increasing(full)
    ensures var kept := LastN(full, 4);
            && (Select(kept, t, interval).Some? ==> Select(kept, t, interval).value.time < t)
            && (Select(kept, t, interval) == Select(full, t, interval) <==>
                (exists x :: x in kept && x.time < t) || forall y :: y in full && y.time < t ==> t - y.time > 2 * interval)
  {
    var kept := LastN(full, HISTORY_LIMIT);
    LastNIncreases(full, HISTORY_LIMIT);
    EarlierOfCut(full, t, HISTORY_LIMIT);
    EarlierEndsWithGreatest(kept, t);
    EarlierEndsWithGreatest(full, t);
    hide Earlier, LastN, Increasing;
    var e := Earlier(full, t);
    if Earlier(kept, t) == [] && e != [] {
      assert e[|e| - 1] in full;
    }
  }

  // ---------------------------------------------------------------- whole runs

  datatype Op = Store(feature: Feature) | Retain(symbols: set<string>) | Rebuild

  datatype Memory = Memory(histories: map<Key, seq<Feature>>, features: map<Key, Feature>)

  function HistoryOf(m: Memory, k: Key): seq<Feature> { if k in m.histories then m.histories[k] else [] }

  function StoreFeature(m: Memory, f: Feature): Memory {
    var h := Stored(HistoryOf(m, f.key), f);
    Memory(m.histories[f.key := h],
           if h == [] || h[|h| - 1].time != f.time then m.features else m.features[f.key := f])
  }

  function Apply(m: Memory, op: Op): Memory {
    match op
    case Store(f) => StoreFeature(m, f)
    case Retain(symbols) =>
      Memory(map k | k in m.histories && k.symbol in symbols :: m.histories[k],
             map k | k in m.features && k.symbol in symbols :: m.features[k])
    case Rebuild => Memory(map[], map[])
  }

  function Run(ops: seq<Op>): Memory {
    if ops == [] then Memory(map[], map[]) else Apply(Run(ops[..|ops| - 1]), ops[|ops| - 1])
  }

  /** Everything stored under a key since it was last pruned or rebuilt, unbounded. */
  function FullOf(ops: seq<Op>, k: Key): seq<Feature> {
    if ops == [] then []
    else
      var before := FullOf(ops[..|ops| - 1], k);
      match ops[|ops| - 1]
      case Store(f) => if f.key == k then Put(before, f) else before
      case Retain(symbols) => if k.symbol in symbols then before else []
      case Rebuild => []
  }

  lemma {:induction false} FullIncreases(ops: seq<Op>, k: Key)
    ensures Increasing(FullOf(ops, k))
  {
    if ops != [] {
      FullIncreases(ops[..|ops| - 1], k);
      if ops[|ops| - 1].Store? {
        PutIsLastWriteWins(FullOf(ops[..|ops| - 1], k), ops[|ops| - 1].feature);
      }
    }
  }

  /** The memory of one key caches its full history. */
  ghost predicate Cached(m: Memory, k: Key, full: seq<Feature>) {
    && HistoryOf(m, k) == LastN(full, 4)
    && (k in m.features <==> full != [])
    && (k in m.features ==> m.features[k] == full[|full| - 1])
  }

  lemma {:induction false} PutEnds(full: seq<Feature>, f: Feature)
    requires Increasing(full)
    ensures var p := Put(full, f);
            && p != []
            && p[|p| - 1] == if full == [] || full[|full| - 1].time <= f.time then f else full[|full| - 1]
  {
  }

  /** The newest entry has the stored time exactly when nothing newer was there. */
  lemma NewestTime(full: seq<Feature>, f: Feature)
    requires Increasing(full)
    ensures Put(full, f) != []
    ensures Put(full, f)[|Put(full, f)| - 1].time == f.time ==> Put(full, f)[|Put(full, f)| - 1] == f
    ensures Put(full, f)[|Put(full, f)| - 1].time != f.time ==>
              full != [] && Put(full, f)[|Put(full, f)| - 1] == full[|full| - 1]
  {
    PutEnds(full, f);
  }

  lemma StoreKeepsCached(m: Memory, f: Feature, full: seq<Feature>)
    requires Cached(m, f.key, full) && Increasing(full)
    ensures Cached(StoreFeature(m, f), f.key, Put(full, f))
  {
    hide Stored, Put, LastN, Increasing;
    LastNIncreases(full, HISTORY_LIMIT);
    StoredIsPut(HistoryOf(m, f.key), f);
    CutCommutesWithPut(full, f, HISTORY_LIMIT);
    PutEnds(full, f);
    PutIsLastWriteWins(full, f);
    LastNIncreases(Put(full, f), HISTORY_LIMIT);
    NewestTime(full, f);
  }

  /**
   Over every run of stores, prunes and rebuilds: each bounded history is the newest four entries of
   the full last-write-wins history since the last prune or rebuild, and the current feature is the newest.
   */
  lemma {:induction false} HistoryIsTopOfFull(ops: seq<Op>, k: Key)
    ensures Cached(Run(ops), k, FullOf(ops, k))
  {
    if ops != [] {
      var front, op := ops[..|ops| - 1], ops[|ops| - 1];
      HistoryIsTopOfFull(front, k);
      FullIncreases(front, k);
      hide Stored, Put, Increasing;
      if op.Store? && op.feature.key == k {
        StoreKeepsCached(Run(front), op.feature, FullOf(front, k));
      }
    }
  }

  function Stores(list: seq<Feature>): seq<Op> { seq(|list|, i requires 0 <= i < |list| => Store(list[i])) }

  /** Features stored in time order are the full history. */
  lemma {:induction false} StoredInOrder(list: seq<Feature>, key: Key)
    requires Increasing(list) && forall i :: 0 <= i < |list| ==> list[i].key == key
    ensures FullOf(Stores(list), key) == list
  {
    if list != [] {
      var front, ops := list[..|list| - 1], Stores(list);
      StoredInOrder(front, key);
      assert ops[..|ops| - 1] == Stores(front);
      PutAtEnd(front, list[|list| - 1]);
    }
  }

  lemma PutAtEnd(h: seq<Feature>, f: Feature)
    requires forall i :: 0 <= i < |h| ==> h[i].time < f.time
    ensures Put(h, f) == h + [f]
  {
  }

  /**
   Five features at times 0, 10, 20, 30 and 40: a decision at time 5 finds none of the four retained ones
   early enough, while the full history still has the recent feature of time 0.
   */
  lemma BoundedSelectionMissesRecent(list: seq<Feature>, key: Key)
    requires |list| == 5 && forall i :: 0 <= i < 5 ==> list[i].key == key && list[i].time == 10 * i
    ensures Select(HistoryOf(Run(Stores(list)), key), 5, 100) == None
    ensures Select(FullOf(Stores(list), key), 5, 100) == Some(list[0])
  {
    hide FullOf, Run, Select, Stores, LastN, Earlier;
    FiveFeatures(list);
    StoredInOrder(list, key);
    HistoryIsTopOfFull(Stores(list), key);
    hide Increasing;
    NothingEarlier(LastN(list, HISTORY_LIMIT), 5, 100);
  }

  lemma FiveFeatures(list: seq<Feature>)
    requires |list| == 5 && forall i :: 0 <= i < 5 ==> list[i].time == 10 * i
    ensures Increasing(list) && Select(list, 5, 100) == Some(list[0])
    ensures forall x :: x in LastN(list, HISTORY_LIMIT) ==> x.time >= 5
  {
    hide Select, Earlier;
    OnlyFirstEarlier(list, 5, 100);
    forall x | x in LastN(list, HISTORY_LIMIT)
      ensures x.time >= 5
    {
      var i :| 0 <= i < 4 && list[1..][i] == x;
      assert x == list[i + 1];
    }
  }

  lemma {:induction false} NothingEarlier(h: seq<Feature>, t: int, interval: nat)
    requires forall x :: x in h ==> x.time >= t
    ensures Earlier(h, t) == [] && Select(h, t, interval) == None
  {
    if h != [] {
      var front, last := h[..|h| - 1], h[|h| - 1];
      assert h == front + [last];
      EarlierSnoc(front, last, t);
      NothingEarlier(front, t, interval);
      hide Earlier;
    }
  }

  lemma OnlyFirstEarlier(h: seq<Feature>, t: int, interval: nat)
    requires Increasing(h) && h != [] && h[0].time < t <= h[0].time + 2 * interval
    requires forall i :: 0 < i < |h| ==> h[i].time >= t
    ensures Select(h, t, interval) == Some(h[0])
  {
    EarlierEndsWithGreatest(h, t);
    hide Earlier;
    assert h[0] in h;
    var e := Earlier(h, t);
    var i :| 0 <= i < |h| && h[i] == e[|e| - 1];
  }

  /** The contexts offered to a decision: one per higher interval of the symbol that has a recent one. */
  function ContextFeatures(m: Memory, symbol: string, t: int, primary: nat): map<nat, Feature> {
    map interval | interval in (set k | k in m.histories && k.symbol == symbol && k.interval > primary :: k.interval)
        && Select(HistoryOf(m, Key(symbol, interval)), t, interval).Some?
      :: Select(HistoryOf(m, Key(symbol, interval)), t, interval).value
  }

  /** In every run, each context offered is strictly earlier, recent, and the newest such of its retained history. */
  lemma ContextsAreStrictlyEarlier(ops: seq<Op>, symbol: string, t: int, primary: nat, interval: nat)
    requires interval in ContextFeatures(Run(ops), symbol, t, primary)
    ensures var x := ContextFeatures(Run(ops), symbol, t, primary)[interval];
            && interval > primary && x.time < t && t - x.time <= 2 * interval
            && Selects(FullOf(ops, Key(symbol, interval)), t, interval, Some(x))
  {
    var k := Key(symbol, interval);
    HistoryIsTopOfFull(ops, k);
    FullIncreases(ops, k);
    var full := FullOf(ops, k);
    var kept := LastN(full, HISTORY_LIMIT);
    hide Run, FullOf;
    LastNIncreases(full, HISTORY_LIMIT);
    SelectIsGreatestEarlier(kept, t, interval);
    SelectionMatchesIff(full, t, interval);
    SelectIsGreatestEarlier(full, t, interval);
  }

  /** A context is offered for an interval exactly when it is a higher one and a retained entry is earlier and recent. */
  lemma ContextOfferedIff(ops: seq<Op>, symbol: string, t: int, primary: nat, interval: nat)
    ensures interval in ContextFeatures(Run(ops), symbol, t, primary) <==>
            && interval > primary
            && exists x :: x in LastN(FullOf(ops, Key(symbol, interval)), 4) && x.time < t && t - x.time <= 2 * interval
  {
    var k, m := Key(symbol, interval), Run(ops);
    HistoryIsTopOfFull(ops, k);
    FullIncreases(ops, k);
    var kept := LastN(FullOf(ops, k), 4);
    LastNIncreases(FullOf(ops, k), 4);
    hide Run, FullOf, LastN, Increasing, Earlier, Select;
    SelectIsGreatestEarlier(kept, t, interval);
    assert HistoryOf(m, k) == kept;
    if k !in m.histories {
      NothingEarlier([], t, interval);
    }
    var intervals := set j | j in m.histories && j.symbol == symbol && j.interval > primary :: j.interval;
    assert interval in intervals <==> k in m.histories && interval > primary by {
      if j :| j in m.histories && j.symbol == symbol && j.interval > primary && j.interval == interval {
        assert j == k;
      }
    }
  }

  // ---------------------------------------------------------------- as it runs

  class FeatureMemory {
    var histories: map<Key, seq<Feature>>
    var features: map<Key, Feature>

    constructor ()
      ensures histories == map[] && features == map[]
    {
      histories, features := map[], map[];
    }

    ghost function State(): Memory
      reads this
    {
      Memory(histories, features)
    }

    method StoreFeature(f: Feature)
      modifies this
      ensures State() == Apply(old(State()), Store(f))
    {
      var history := if f.key in histories then histories[f.key] else [];
      var others: seq<Feature> := [];
      for i := 0 to |history|
        invariant others == Others(history[..i], f.time)
      {
        assert history[..i + 1][..i] == history[..i];
        if history[i].time != f.time {
          others := others + [history[i]];
        }
      }
      assert history[..|history|] == history;
      var ordered := SortBy(others + [f], TimeOf);
      history := LastN(ordered, HISTORY_LIMIT);
      histories := histories[f.key := history];
      if history == [] || history[|history| - 1].time != f.time {
        return;
      }
      features := features[f.key := f];
    }
  }
}
