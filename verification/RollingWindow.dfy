/** The 10-second rolling window of the stream profile: a deque against every possible window. */
module RollingWindow {
  import opened Sorting

  datatype Record = Record(time: int, size: nat)

  /** Whether the records are being counted or their bytes added up. */
  datatype Measure = Messages | Bytes

  const WINDOW_MS := 10000

  function TimeOf(r: Record): int { r.time }

  function Weight(m: Measure, r: Record): nat { if m.Messages? then 1 else r.size }

  function Total(m: Measure, s: seq<Record>): nat {
    if s == [] then 0 else Total(m, s[..|s| - 1]) + Weight(m, s[|s| - 1])
  }

  predicate Inside(r: Record, start: int) { start <= r.time < start + 10000 }

  /** Number or total size of the records in the window that starts at `start`. */
  function InWindow(m: Measure, s: seq<Record>, start: int): nat {
    if s == [] then 0
    else InWindow(m, s[..|s| - 1], start) + if Inside(s[|s| - 1], start) then (if m.Messages? then 1 else s[|s| - 1].size) else 0
  }

  /** The peak over every window of 10,000 consecutive milliseconds. */
  ghost predicate IsPeak(m: Measure, s: seq<Record>, peak: nat) {
    && (forall start :: InWindow(m, s, start) <= peak)
    && (exists start :: InWindow(m, s, start) == peak)
  }

  lemma {:induction false} InWindowConcat(m: Measure, a: seq<Record>, b: seq<Record>, start: int)
    ensures InWindow(m, a + b, start) == InWindow(m, a, start) + InWindow(m, b, start)
  {
    if b == [] {
      assert a + b == a;
    } else {
      var s := a + b;
      assert s[..|s| - 1] == a + b[..|b| - 1];
      InWindowConcat(m, a, b[..|b| - 1], start);
    }
  }

  lemma {:induction false} WindowOfInsert(m: Measure, s: seq<Record>, x: Record, start: int)
    ensures InWindow(m, InsertBy(s, x, TimeOf), start) == InWindow(m, s + [x], start)
  {
    if s != [] && TimeOf(s[|s| - 1]) > TimeOf(x) {
      var front, last := s[..|s| - 1], s[|s| - 1];
      WindowOfInsert(m, front, x, start);
      InWindowConcat(m, InsertBy(front, x, TimeOf), [last], start);
      InWindowConcat(m, front, [x], start);
      InWindowConcat(m, front, [last], start);
      InWindowConcat(m, s, [x], start);
      assert s == front + [last];
    }
  }

  /** A window holds the same whatever order the records are listed in. */
  lemma {:induction false} WindowOfSort(m: Measure, s: seq<Record>, start: int)
    ensures InWindow(m, SortBy(s, TimeOf), start) == InWindow(m, s, start)
  {
    if s != [] {
      var front, last := s[..|s| - 1], s[|s| - 1];
      assert s == front + [last] && SortBy(s, TimeOf) == InsertBy(SortBy(front, TimeOf), last, TimeOf);
      hide InWindow, InsertBy, SortBy;
      WindowOfSort(m, front, start);
      WindowOfInsert(m, SortBy(front, TimeOf), last, start);
      InWindowConcat(m, SortBy(front, TimeOf), [last], start);
      InWindowConcat(m, front, [last], start);
    }
  }

  lemma {:induction false} WindowAtMostTotal(m: Measure, s: seq<Record>, start: int)
    ensures InWindow(m, s, start) <= Total(m, s)
    ensures (forall i :: 0 <= i < |s| ==> Inside(s[i], start)) ==> InWindow(m, s, start) == Total(m, s)
    ensures (forall i :: 0 <= i < |s| ==> !Inside(s[i], start)) ==> InWindow(m, s, start) == 0
  {
    if s != [] {
      WindowAtMostTotal(m, s[..|s| - 1], start);
    }
  }

  /** The deque after record j: the records of s up to j that are at most 9,999 ms older than it. */
  ghost predicate IsDeque(s: seq<Record>, lo: nat, j: nat) {
    && lo <= j < |s|
    && (forall i :: 0 <= i < lo ==> s[i].time < s[j].time - (WINDOW_MS - 1))
    && (forall i :: lo <= i <= j ==> s[i].time >= s[j].time - (WINDOW_MS - 1))
  }

  /** The measure of the deque that begins at lo, after record j. */
  function Held(m: Measure, s: seq<Record>, lo: nat, j: nat): nat {
    if lo <= j < |s| then Total(m, s[lo..j + 1]) else 0
  }

  lemma SplitWindow(m: Measure, s: seq<Record>, lo: nat, hi: nat, start: int)
    requires lo <= hi <= |s|
    ensures InWindow(m, s, start)
         == InWindow(m, s[..lo], start) + InWindow(m, s[lo..hi], start) + InWindow(m, s[hi..], start)
  {
    assert s == s[..lo] + s[lo..hi] + s[hi..];
    InWindowConcat(m, s[..lo] + s[lo..hi], s[hi..], start);
    InWindowConcat(m, s[..lo], s[lo..hi], start);
  }

  /** What the deque holds lies in one window, so it is at most that window's measure. */
  lemma DequeFitsWindow(m: Measure, s: seq<Record>, lo: nat, j: nat)
    requires SortedBy(s, TimeOf) && IsDeque(s, lo, j)
    ensures Held(m, s, lo, j) <= InWindow(m, s, s[j].time - (WINDOW_MS - 1))
  {
    var start, part := s[j].time - (WINDOW_MS - 1), s[lo..j + 1];
    forall i | 0 <= i < |part|
      ensures Inside(part[i], start)
    {
      assert lo + i == j || TimeOf(s[lo + i]) <= TimeOf(s[j]);
    }
    hide SortedBy, IsDeque;
    SplitWindow(m, s, lo, j + 1, start);
    WindowAtMostTotal(m, part, start);
  }

  lemma BeforeDeque(s: seq<Record>, lo: nat, j: nat, start: int)
    requires IsDeque(s, lo, j) && Inside(s[j], start)
    ensures lo <= j + 1 <= |s| && forall i :: 0 <= i < lo ==> !Inside(s[..lo][i], start)
  {
    forall i | 0 <= i < lo
      ensures !Inside(s[..lo][i], start)
    {
      assert s[..lo][i] == s[i];
    }
  }

  /** A window whose last record is j lies within the deque after j. */
  lemma WindowFitsDeque(m: Measure, s: seq<Record>, lo: nat, j: nat, start: int)
    requires IsDeque(s, lo, j) && Inside(s[j], start)
    requires forall i :: j < i < |s| ==> !Inside(s[i], start)
    ensures InWindow(m, s, start) <= Held(m, s, lo, j)
  {
    var before, after := s[..lo], s[j + 1..];
    BeforeDeque(s, lo, j, start);
    hide IsDeque, Inside, InWindow, Total;
    forall i | 0 <= i < |after|
      ensures !Inside(after[i], start)
    {
      assert after[i] == s[j + 1 + i];
    }
    SplitWindow(m, s, lo, j + 1, start);
    WindowAtMostTotal(m, before, start);
    WindowAtMostTotal(m, after, start);
    WindowAtMostTotal(m, s[lo..j + 1], start);
  }

  lemma {:induction false} LastInside(s: seq<Record>, start: int) returns (j: int)
    ensures -1 <= j < |s|
    ensures j >= 0 ==> Inside(s[j], start)
    ensures forall i :: j < i < |s| ==> !Inside(s[i], start)
  {
    if s == [] {
      j := -1;
    } else if Inside(s[|s| - 1], start) {
      j := |s| - 1;
    } else {
      j := LastInside(s[..|s| - 1], start);
    }
  }

  /** `los[j]` is where the deque after record j begins. */
  ghost predicate Deques(s: seq<Record>, los: seq<nat>) {
    |los| <= |s| && forall j :: 0 <= j < |los| ==> IsDeque(s, los[j], j)
  }

  ghost predicate IsMaxDeque(m: Measure, s: seq<Record>, los: seq<nat>, peak: nat) {
    && Deques(s, los)
    && (forall j :: 0 <= j < |los| ==> Held(m, s, los[j], j) <= peak)
    && (if los == [] then peak == 0 else exists j :: 0 <= j < |los| && Held(m, s, los[j], j) == peak)
  }

  /** The largest deque measures exactly the busiest window. */
  lemma MaxDequeIsPeak(m: Measure, s: seq<Record>, los: seq<nat>, peak: nat)
    requires SortedBy(s, TimeOf) && |los| == |s| && IsMaxDeque(m, s, los, peak)
    ensures IsPeak(m, s, peak)
  {
    forall start
      ensures InWindow(m, s, start) <= peak
    {
      var j := LastInside(s, start);
      if j >= 0 {
        WindowFitsDeque(m, s, los[j], j, start);
      } else {
        WindowAtMostTotal(m, s, start);
      }
    }
    if s == [] {
      assert InWindow(m, s, 0) == peak;
    } else {
      var j :| 0 <= j < |los| && Held(m, s, los[j], j) == peak;
      DequeFitsWindow(m, s, los[j], j);
      assert InWindow(m, s, s[j].time - (WINDOW_MS - 1)) == peak;
    }
  }

  lemma PeakOfSort(m: Measure, s: seq<Record>, peak: nat)
    requires IsPeak(m, SortBy(s, TimeOf), peak)
    ensures IsPeak(m, s, peak)
  {
    forall start
      ensures InWindow(m, s, start) == InWindow(m, SortBy(s, TimeOf), start)
    {
      WindowOfSort(m, s, start);
    }
    var start :| InWindow(m, SortBy(s, TimeOf), start) == peak;
    assert InWindow(m, s, start) == peak;
  }

  lemma {:induction false} MessagesAreLength(s: seq<Record>)
    ensures Total(Messages, s) == |s|
  {
    if s != [] {
      MessagesAreLength(s[..|s| - 1]);
    }
  }

  lemma {:induction false} TotalDropFirst(m: Measure, s: seq<Record>)
    requires s != []
    ensures Total(m, s) == Weight(m, s[0]) + Total(m, s[1..])
  {
    if |s| > 1 {
      TotalDropFirst(m, s[..|s| - 1]);
      assert s[..|s| - 1][1..] == s[1..][..|s| - 2];
      assert s[1..][|s| - 2] == s[|s| - 1];
    }
  }

  lemma TotalAppend(m: Measure, s: seq<Record>, x: Record)
    ensures Total(m, s + [x]) == Total(m, s) + Weight(m, x)
  {
    assert (s + [x])[..|s|] == s;
  }

  /** Drops from the old end of the deque everything more than 9,999 ms older than record i. */
  method Evict(s: seq<Record>, lo: nat, i: nat, rolling: nat) returns (next: nat, left: nat)
    requires lo <= i < |s| && SortedBy(s, TimeOf)
    requires forall k :: 0 <= k < lo ==> s[k].time < s[i].time - (WINDOW_MS - 1)
    requires rolling == Total(Bytes, s[lo..i + 1])
    ensures IsDeque(s, next, i) && left == Total(Bytes, s[next..i + 1])
  {
    next, left := lo, rolling;
    var queue := s[lo..i + 1];
    while queue != [] && queue[0].time < s[i].time - (WINDOW_MS - 1)
      invariant lo <= next <= i && queue == s[next..i + 1]
      invariant forall k :: 0 <= k < next ==> s[k].time < s[i].time - (WINDOW_MS - 1)
      invariant left == Total(Bytes, queue)
      decreases i - next
    {
      TotalDropFirst(Bytes, queue);
      left := left - queue[0].size;
      queue := queue[1..];
      next := next + 1;
    }
    forall k | next <= k <= i
      ensures s[k].time >= s[i].time - (WINDOW_MS - 1)
    {
      assert k == next || TimeOf(s[next]) <= TimeOf(s[k]);
    }
  }

  /** Peak messages and peak bytes of one stream, for records in any order, equal times included. */
  method ProfileStream(records: seq<Record>) returns (peakMessages: nat, peakBytes: nat)
    ensures IsPeak(Messages, records, peakMessages)
    ensures IsPeak(Bytes, records, peakBytes)
  {
    hide IsPeak, IsMaxDeque, SortBy, Total;
    var s := SortBy(records, TimeOf);
    SortBySorts(records, TimeOf);
    ghost var los: seq<nat> := [];
    var lo, rolling := 0, 0;
    peakMessages, peakBytes := 0, 0;
    StartMax(s);
    for i := 0 to |s|
      invariant lo <= i && |los| == i && rolling == Total(Bytes, s[lo..i])
      invariant forall k :: 0 <= k < lo ==> i > 0 && s[k].time < s[i - 1].time - (WINDOW_MS - 1)
      invariant IsMaxDeque(Messages, s, los, peakMessages) && IsMaxDeque(Bytes, s, los, peakBytes)
    {
      assert s[lo..i + 1] == s[lo..i] + [s[i]];
      TotalAppend(Bytes, s[lo..i], s[i]);
      rolling := rolling + s[i].size;
      assert i > 0 ==> TimeOf(s[i - 1]) <= TimeOf(s[i]);
      lo, rolling := Evict(s, lo, i, rolling);
      MessagesAreLength(s[lo..i + 1]);
      var length := i + 1 - lo;
      ExtendMax(Messages, s, los, peakMessages, lo);
      ExtendMax(Bytes, s, los, peakBytes, lo);
      peakMessages := if length > peakMessages then length else peakMessages;
      peakBytes := if rolling > peakBytes then rolling else peakBytes;
      los := los + [lo];
    }
    MaxDequeIsPeak(Messages, s, los, peakMessages);
    MaxDequeIsPeak(Bytes, s, los, peakBytes);
    PeakOfSort(Messages, records, peakMessages);
    PeakOfSort(Bytes, records, peakBytes);
  }

  lemma StartMax(s: seq<Record>)
    ensures IsMaxDeque(Messages, s, [], 0) && IsMaxDeque(Bytes, s, [], 0)
    ensures Total(Bytes, s[0..0]) == 0
  {
  }

  lemma ExtendMax(m: Measure, s: seq<Record>, los: seq<nat>, peak: nat, lo: nat)
    requires |los| < |s| && IsMaxDeque(m, s, los, peak) && IsDeque(s, lo, |los|)
    ensures var t := Held(m, s, lo, |los|);
            IsMaxDeque(m, s, los + [lo], if t > peak then t else peak)
  {
    hide Held, IsDeque;
    var next, t := los + [lo], Held(m, s, lo, |los|);
    assert next[|los|] == lo;
    assert forall j :: 0 <= j < |los| ==> next[j] == los[j];
    if los != [] {
      var j :| 0 <= j < |los| && Held(m, s, los[j], j) == peak;
      assert Held(m, s, next[j], j) == peak;
    }
  }
}
