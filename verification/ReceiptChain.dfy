/**
 The chain of health receipts: the producer that links each new receipt to the last one it can verify,
 and the independent verifier, in full and in latest-only mode.

 A digest is the body it was taken of. A directory is its receipt files in file-name order, which is the
 only order either side ever sees.
 */
module ReceiptChain {
  import opened Prelude

  /** `wellFormed` stands for the presence and type checks of the nested sections. */
  datatype Body = Body(schema: string, mode: string, id: string, captured: nat, campaign: string, source: string,
                       previous: Option<Digest>, wellFormed: bool)
  datatype Digest = Sha256(body: Body)
  datatype Receipt = Receipt(body: Body, digest: Option<Digest>)

  /** A file, by its name without the .json suffix; None is a file that cannot be read. */
  datatype File = File(stem: string, content: Option<Receipt>)

  const SCHEMA := "oci_dbfree_health_receipt_v2"

  // ---------------------------------------------------------------- file names

  function Digit(d: nat): char
    requires d < 10
  {
    "0123456789"[d]
  }

  function Decimal(n: nat): string {
    if n < 10 then [Digit(n)] else Decimal(n / 10) + [Digit(n % 10)]
  }

  function Stem(mode: string, captured: nat): string { mode + "-v2-" + Decimal(captured) }

  /** Order of file names, as Python compares strings. */
  predicate Less(a: string, b: string) {
    if b == [] then false
    else if a == [] then true
    else a[0] < b[0] || (a[0] == b[0] && Less(a[1..], b[1..]))
  }

  predicate NameLess(a: string, b: string) { Less(a + ".json", b + ".json") }

  lemma {:induction false} LessAfterPrefix(p: string, a: string, b: string)
    ensures Less(p + a, p + b) <==> Less(a, b)
  {
    if p == [] {
      assert p + a == a && p + b == b;
    } else {
      assert (p + a)[1..] == p[1..] + a && (p + b)[1..] == p[1..] + b;
      LessAfterPrefix(p[1..], a, b);
    }
  }

  lemma {:induction false} LessExtends(a: string, b: string, u: string, v: string)
    requires |a| == |b| && Less(a, b)
    ensures Less(a + u, b + v)
  {
    if a[0] == b[0] {
      LessExtends(a[1..], b[1..], u, v);
    }
    assert (a + u)[1..] == a[1..] + u && (b + v)[1..] == b[1..] + v;
  }

  lemma DigitsIncrease(d: nat, e: nat)
    requires d < e < 10
    ensures Digit(d) < Digit(e)
  {
  }

  /** Among numbers of equal width the order of names is the order of numbers. */
  lemma {:induction false} EqualWidthOrders(a: nat, b: nat)
    requires a < b && |Decimal(a)| == |Decimal(b)|
    ensures Less(Decimal(a), Decimal(b))
  {
    if a < 10 {
      DigitsIncrease(a, b);
    } else {
      var x, y, d, e := Decimal(a / 10), Decimal(b / 10), Digit(a % 10), Digit(b % 10);
      if a / 10 < b / 10 {
        EqualWidthOrders(a / 10, b / 10);
        LessExtends(x, y, [d], [e]);
      } else {
        DigitsIncrease(a % 10, b % 10);
        LessAfterPrefix(x, [d], [e]);
      }
    }
  }

  lemma EqualWidthNames(mode: string, a: nat, b: nat)
    requires a < b && |Decimal(a)| == |Decimal(b)|
    ensures NameLess(Stem(mode, a), Stem(mode, b))
  {
    EqualWidthOrders(a, b);
    LessExtends(Decimal(a), Decimal(b), ".json", ".json");
    var p := mode + "-v2-";
    LessAfterPrefix(p, Decimal(a) + ".json", Decimal(b) + ".json");
    assert Stem(mode, a) + ".json" == p + (Decimal(a) + ".json");
    assert Stem(mode, b) + ".json" == p + (Decimal(b) + ".json");
  }

  /** The number a decimal text stands for. */
  function Read(s: string): int {
    if s == [] then 0 else Read(s[..|s| - 1]) * 10 + (s[|s| - 1] as int - '0' as int)
  }

  /** A capture time can be read back from the name of its file. */
  lemma {:induction false} DecimalReadsBack(n: nat)
    ensures Read(Decimal(n)) == n && |Decimal(n)| >= 1
    ensures forall i :: 0 <= i < |Decimal(n)| ==> '0' <= Decimal(n)[i] <= '9'
    ensures n > 0 ==> Decimal(n)[0] != '0'
  {
    var d := Digit(n % 10);
    assert d as int - '0' as int == n % 10;
    if n < 10 {
      assert Decimal(n) == [d] && [d][..0] == [] && Read([]) == 0;
    } else {
      DecimalReadsBack(n / 10);
      var front := Decimal(n / 10);
      assert Decimal(n) == front + [d] && (front + [d])[..|front|] == front;
    }
  }

  /** File names are ordered by the first character in which they differ, a proper prefix first. */
  lemma {:induction false} LessIff(a: string, b: string)
    ensures Less(a, b) <==> exists k: nat :: DiffersAt(a, b, k)
  {
    if b != [] && a != [] {
      var c, d := a[1..], b[1..];
      LessIff(c, d);
      if a[0] == b[0] {
        if k: nat :| DiffersAt(c, d, k) {
          assert a == [a[0]] + c && b == [b[0]] + d;
          assert a[..k + 1] == [a[0]] + c[..k] && b[..k + 1] == [b[0]] + d[..k];
          assert DiffersAt(a, b, k + 1);
        }
        if k: nat :| DiffersAt(a, b, k) {
          assert k > 0;
          assert c[..k - 1] == a[..k][1..] && d[..k - 1] == b[..k][1..];
          assert DiffersAt(c, d, k - 1);
        }
      } else if a[0] < b[0] {
        assert DiffersAt(a, b, 0);
      } else {
        assert forall k: nat :: 0 < k <= |a| && k <= |b| ==> a[..k][0] == a[0] && b[..k][0] == b[0];
      }
    } else if b != [] {
      assert DiffersAt(a, b, 0);
    }
  }

  ghost predicate DiffersAt(a: string, b: string, k: nat) {
    k <= |a| && k < |b| && a[..k] == b[..k] && (k == |a| || a[k] < b[k])
  }

  // ---------------------------------------------------------------- producer

  /** The producer's own check of file k. */
  predicate Linked(files: seq<File>, mode: string, k: nat)
    requires k < |files|
  {
    && files[k].content.Some?
    && var r := files[k].content.value;
       && r.body.schema == SCHEMA && r.body.mode == mode && r.body.id == files[k].stem
       && r.digest == Some(Sha256(r.body))
       && r.body.previous == (if k == 0 then None else DigestOf(files[k - 1]))
  }

  function DigestOf(f: File): Option<Digest> { if f.content.Some? then f.content.value.digest else None }

  /** No HealthError from reading the directory back. */
  predicate VerifiedReceipts(files: seq<File>, mode: string) {
    forall k :: 0 <= k < |files| ==> Linked(files, mode, k)
  }

  datatype Settings = Settings(mode: string, campaign: string, source: string)

  function NewBody(s: Settings, captured: nat, previous: Option<Digest>): Body {
    Body(SCHEMA, s.mode, Stem(s.mode, captured), captured, s.campaign, s.source, previous, true)
  }

  function NewFile(s: Settings, captured: nat, previous: Option<Digest>): File {
    var body := NewBody(s, captured, previous);
    File(Stem(s.mode, captured), Some(Receipt(body, Some(Sha256(body)))))
  }

  /** Where a new file appears in name order. */
  function Insert(files: seq<File>, f: File): seq<File> {
    if files == [] || NameLess(files[|files| - 1].stem, f.stem) then files + [f]
    else Insert(files[..|files| - 1], f) + [files[|files| - 1]]
  }

  /** One receipt built and published; None is a HealthError, which publishes nothing. */
  function BuildReceipt(files: seq<File>, s: Settings, captured: nat): Option<seq<File>> {
    if !VerifiedReceipts(files, s.mode) || exists f :: f in files && f.stem == Stem(s.mode, captured) then None
    else
      var previous := if files == [] then None else DigestOf(files[|files| - 1]);
      Some(Insert(files, NewFile(s, captured, previous)))
  }

  function BuildAll(s: Settings, captures: seq<nat>): Option<seq<File>> {
    if captures == [] then Some([])
    else
      var before := BuildAll(s, captures[..|captures| - 1]);
      if before.None? then None else BuildReceipt(before.value, s, captures[|captures| - 1])
  }

  // ---------------------------------------------------------------- independent verifier

  datatype Verifier = Verifier(previousHash: Option<Digest>, previousTime: Option<nat>, seen: set<string>,
                               campaign: Option<string>, source: Option<string>, ok: bool)

  const FRESH := Verifier(None, None, {}, None, None, true)

  /** The checks on one record by itself. */
  predicate ValidRecord(f: File, r: Receipt, mode: string) {
    && r.body.wellFormed && r.body.schema == SCHEMA && r.body.mode == mode
    && f.stem == Stem(mode, r.body.captured) && r.digest == Some(Sha256(r.body))
  }

  function VerifyOne(v: Verifier, f: File, mode: string): Verifier {
    if f.content.None? then v.(ok := false)
    else
      var r := f.content.value;
      var ok := && ValidRecord(f, r, mode)
                && r.body.id !in v.seen
                && (v.previousTime.Some? ==> r.body.captured > v.previousTime.value)
                && (v.campaign.Some? ==> r.body.campaign == v.campaign.value)
                && (v.source.Some? ==> r.body.source == v.source.value)
                && r.body.previous == v.previousHash;
      Verifier(r.digest, Some(r.body.captured), v.seen + {r.body.id},
               if v.campaign.None? then Some(r.body.campaign) else v.campaign,
               if v.source.None? then Some(r.body.source) else v.source,
               v.ok && ok)
  }

  function VerifyAll(v: Verifier, files: seq<File>, mode: string): Verifier {
    if files == [] then v else VerifyOne(VerifyAll(v, files[..|files| - 1], mode), files[|files| - 1], mode)
  }

  function AcceptsFull(files: seq<File>, mode: string): bool {
    files != [] && VerifyAll(FRESH, files, mode).ok
  }

  /** The last two files, started from the hash and time of the one before them. */
  function AcceptsLatest(files: seq<File>, mode: string): bool {
    files != [] &&
    if |files| <= 2 then VerifyAll(FRESH, files, mode).ok
    else
      var prior := files[|files| - 3];
      prior.content.Some? &&
      var start := FRESH.(previousHash := prior.content.value.digest, previousTime := Some(prior.content.value.body.captured));
      VerifyAll(start, files[|files| - 2..], mode).ok
  }

  /** The record names its own file and is digested as it stands. */
  ghost predicate SelfConsistent(f: File, r: Receipt, mode: string) {
    && r.body.wellFormed && r.body.schema == "oci_dbfree_health_receipt_v2" && r.body.mode == mode
    && f.stem == mode + "-v2-" + Decimal(r.body.captured)
    && r.digest.Some? && r.digest.value.body == r.body
  }

  lemma ValidRecordIff(f: File, r: Receipt, mode: string)
    ensures ValidRecord(f, r, mode) <==> SelfConsistent(f, r, mode)
  {
  }

  /** What full acceptance means for file k. */
  ghost predicate SoundAt(files: seq<File>, mode: string, k: nat)
    requires k < |files|
  {
    && files[k].content.Some? && files[0].content.Some?
    && var r, first := files[k].content.value, files[0].content.value;
       && SelfConsistent(files[k], r, mode)
       && r.body.previous == (if k == 0 then None else DigestOf(files[k - 1]))
       && (k > 0 ==> files[k - 1].content.Some? && files[k - 1].content.value.body.captured < r.body.captured)
       && r.body.campaign == first.body.campaign && r.body.source == first.body.source
       && r.body.id !in IdsOf(files[..k])
  }

  ghost predicate SoundChain(files: seq<File>, mode: string) {
    forall k :: 0 <= k < |files| ==> SoundAt(files, mode, k)
  }

  function IdsOf(files: seq<File>): set<string> {
    set f | f in files && f.content.Some? :: f.content.value.body.id
  }

  /** The verifier's variables after a chain it accepted. */
  ghost predicate Reflects(v: Verifier, files: seq<File>) {
    && v.seen == IdsOf(files)
    && (files == [] ==> v == FRESH)
    && (files != [] && files[|files| - 1].content.Some? && files[0].content.Some? ==>
          var last := files[|files| - 1].content.value;
          && v.previousHash == last.digest && v.previousTime == Some(last.body.captured)
          && v.campaign == Some(files[0].content.value.body.campaign)
          && v.source == Some(files[0].content.value.body.source))
  }

  lemma IdsOfAppend(front: seq<File>, f: File)
    requires f.content.Some?
    ensures IdsOf(front + [f]) == IdsOf(front) + {f.content.value.body.id}
  {
    var all := front + [f];
    assert f in all;
    assert forall g :: g in all <==> g in front || g == f;
  }

  lemma SoundAtPrefix(front: seq<File>, f: File, mode: string, k: nat)
    requires k < |front|
    ensures SoundAt(front + [f], mode, k) <==> SoundAt(front, mode, k)
  {
    assert (front + [f])[..k] == front[..k];
  }

  lemma SoundChainSplit(front: seq<File>, f: File, mode: string)
    ensures SoundChain(front + [f], mode) <==> SoundChain(front, mode) && SoundAt(front + [f], mode, |front|)
  {
    var all := front + [f];
    forall k | 0 <= k < |front|
      ensures SoundAt(all, mode, k) <==> SoundAt(front, mode, k)
    {
      SoundAtPrefix(front, f, mode, k);
    }
    hide SoundAt;
    if SoundChain(all, mode) {
      assert forall k :: 0 <= k < |front| ==> SoundAt(all, mode, k);
    }
  }

  /** One step of the verifier is exactly the soundness of the file it reads. */
  lemma VerifyOneIsSoundAt(front: seq<File>, f: File, v: Verifier, mode: string)
    requires Reflects(v, front) && v.ok
    requires front != [] ==> front[0].content.Some? && front[|front| - 1].content.Some?
    ensures VerifyOne(v, f, mode).ok <==> SoundAt(front + [f], mode, |front|)
    ensures VerifyOne(v, f, mode).ok ==> Reflects(VerifyOne(v, f, mode), front + [f])
  {
    var all := front + [f];
    assert all[|front|] == f && all[..|front|] == front;
    if f.content.Some? {
      IdsOfAppend(front, f);
      ValidRecordIff(f, f.content.value, mode);
    }
    hide IdsOf, ValidRecord, SelfConsistent;
  }

  lemma SoundExtends(front: seq<File>, f: File, v: Verifier, mode: string)
    requires SoundChain(front, mode) && Reflects(v, front) && v.ok
    ensures VerifyOne(v, f, mode).ok <==> SoundChain(front + [f], mode)
    ensures VerifyOne(v, f, mode).ok ==> Reflects(VerifyOne(v, f, mode), front + [f])
  {
    if front != [] {
      assert SoundAt(front, mode, |front| - 1);
    }
    hide SoundAt, Reflects;
    SoundChainSplit(front, f, mode);
    VerifyOneIsSoundAt(front, f, v, mode);
  }

  lemma {:induction false} FailureSticks(v: Verifier, files: seq<File>, mode: string)
    requires !v.ok
    ensures !VerifyAll(v, files, mode).ok
  {
    if files != [] {
      FailureSticks(v, files[..|files| - 1], mode);
    }
  }

  lemma SoundPrefix(files: seq<File>, mode: string)
    requires files != [] && SoundChain(files, mode)
    ensures SoundChain(files[..|files| - 1], mode)
  {
    var front, f := files[..|files| - 1], files[|files| - 1];
    assert front + [f] == files;
    SoundChainSplit(front, f, mode);
  }

  /** The verifier accepts exactly the sound chains. */
  lemma {:induction false} FullIffSound(files: seq<File>, mode: string)
    ensures VerifyAll(FRESH, files, mode).ok <==> SoundChain(files, mode)
    ensures SoundChain(files, mode) ==> Reflects(VerifyAll(FRESH, files, mode), files)
  {
    if files != [] {
      var front, f := files[..|files| - 1], files[|files| - 1];
      FullIffSound(front, mode);
      assert front + [f] == files;
      hide SoundChain, Reflects;
      if SoundChain(front, mode) {
        SoundExtends(front, f, VerifyAll(FRESH, front, mode), mode);
      } else if SoundChain(files, mode) {
        SoundPrefix(files, mode);
      }
    }
  }

  /** The record follows the one before it in the chain and in time. */
  ghost predicate Follows(before: Receipt, r: Receipt) {
    r.body.previous == before.digest && before.body.captured < r.body.captured
  }

  /**
   What latest-only mode accepts: the last two records are consistent, of one campaign and source under
   different ids, and follow each other and the one before them, of which only digest and time are read.
   */
  lemma LatestIff(files: seq<File>, mode: string)
    requires |files| > 2
    ensures var f, a, b := files[|files| - 3], files[|files| - 2], files[|files| - 1];
            AcceptsLatest(files, mode) <==>
            && f.content.Some? && a.content.Some? && b.content.Some?
            && var x, y := a.content.value, b.content.value;
               && SelfConsistent(a, x, mode) && SelfConsistent(b, y, mode)
               && Follows(f.content.value, x) && Follows(x, y)
               && x.body.id != y.body.id && x.body.campaign == y.body.campaign && x.body.source == y.body.source
  {
    var f, a, b := files[|files| - 3], files[|files| - 2], files[|files| - 1];
    assert files[|files| - 2..] == [a, b];
    if f.content.Some? {
      LatestTwo(f.content.value, a, b, mode);
    }
    hide VerifyAll, SelfConsistent, Follows;
  }

  lemma LatestTwo(prior: Receipt, a: File, b: File, mode: string)
    ensures VerifyAll(FRESH.(previousHash := prior.digest, previousTime := Some(prior.body.captured)), [a, b], mode).ok <==>
            && a.content.Some? && b.content.Some?
            && var x, y := a.content.value, b.content.value;
               && SelfConsistent(a, x, mode) && SelfConsistent(b, y, mode)
               && Follows(prior, x) && Follows(x, y)
               && x.body.id != y.body.id && x.body.campaign == y.body.campaign && x.body.source == y.body.source
  {
    var start := FRESH.(previousHash := prior.digest, previousTime := Some(prior.body.captured));
    TwoSteps(start, a, b, mode);
    hide VerifyAll, Stem, Decimal;
    if a.content.Some? && b.content.Some? {
      ValidRecordIff(a, a.content.value, mode);
      ValidRecordIff(b, b.content.value, mode);
      hide ValidRecord, SelfConsistent;
    }
  }

  /** Acceptance of the whole chain implies acceptance in latest-only mode, for every directory. */
  lemma FullImpliesLatest(files: seq<File>, mode: string)
    requires AcceptsFull(files, mode)
    ensures AcceptsLatest(files, mode)
  {
    FullIffSound(files, mode);
    if |files| > 2 {
      var n := |files|;
      assert SoundAt(files, mode, n - 3) && SoundAt(files, mode, n - 2) && SoundAt(files, mode, n - 1);
      IdDiffers(files, n - 2, n - 1);
      LatestIff(files, mode);
      hide IdsOf, SoundChain, SelfConsistent, AcceptsLatest;
    }
  }

  lemma IdDiffers(files: seq<File>, i: nat, j: nat)
    requires i < j < |files| && files[i].content.Some? && files[j].content.Some?
    requires files[j].content.value.body.id !in IdsOf(files[..j])
    ensures files[i].content.value.body.id != files[j].content.value.body.id
  {
    assert files[..j][i] == files[i];
    assert files[i] in files[..j];
  }

  lemma TwoSteps(v: Verifier, a: File, b: File, mode: string)
    ensures VerifyAll(v, [a, b], mode) == VerifyOne(VerifyOne(v, a, mode), b, mode)
  {
    hide VerifyOne;
    assert [a, b][..1] == [a] && [a][..0] == [];
    assert VerifyAll(v, [], mode) == v;
    assert VerifyAll(v, [a], mode) == VerifyOne(v, a, mode);
  }

  // ---------------------------------------------------------------- produced chains

  /** Each capture follows the previous one, in time and in name order. */
  ghost predicate InOrder(mode: string, captures: seq<nat>) {
    NamesInOrder(mode, captures) && TimesIncrease(captures)
  }

  ghost predicate NamesInOrder(mode: string, captures: seq<nat>) {
    forall i :: 0 < i < |captures| ==> NameLess(Stem(mode, captures[i - 1]), Stem(mode, captures[i]))
  }

  ghost predicate TimesIncrease(captures: seq<nat>) {
    forall i :: 0 < i < |captures| ==> captures[i - 1] < captures[i]
  }

  /** files[i] is the receipt of captures[i], linked to the one before it. */
  ghost predicate ProducedAt(s: Settings, captures: seq<nat>, files: seq<File>, i: nat)
    requires i < |files| == |captures|
  {
    files[i] == NewFile(s, captures[i], if i == 0 then None else DigestOf(files[i - 1]))
  }

  ghost predicate Produced(s: Settings, captures: seq<nat>, files: seq<File>) {
    |files| == |captures| && forall i :: 0 <= i < |files| ==> ProducedAt(s, captures, files, i)
  }

  lemma {:induction false} LessTransitive(a: string, b: string, c: string)
    requires Less(a, b) && Less(b, c)
    ensures Less(a, c)
  {
    if a != [] && a[0] == b[0] && b[0] == c[0] {
      LessTransitive(a[1..], b[1..], c[1..]);
    }
  }

  lemma {:induction false} LessIrreflexive(a: string)
    ensures !Less(a, a)
  {
    if a != [] {
      LessIrreflexive(a[1..]);
    }
  }

  lemma {:induction false} NamesIncrease(mode: string, captures: seq<nat>, i: nat, j: nat)
    requires NamesInOrder(mode, captures) && i < j < |captures|
    ensures NameLess(Stem(mode, captures[i]), Stem(mode, captures[j]))
    decreases j
  {
    assert NameLess(Stem(mode, captures[j - 1]), Stem(mode, captures[j]));
    if i < j - 1 {
      NamesIncrease(mode, captures, i, j - 1);
      LessTransitive(Stem(mode, captures[i]) + ".json", Stem(mode, captures[j - 1]) + ".json", Stem(mode, captures[j]) + ".json");
    }
  }

  lemma CapturesDiffer(mode: string, captures: seq<nat>, i: nat, j: nat)
    requires NamesInOrder(mode, captures) && i < j < |captures|
    ensures captures[i] != captures[j]
  {
    NamesIncrease(mode, captures, i, j);
    LessIrreflexive(Stem(mode, captures[i]) + ".json");
  }

  lemma DecimalInjective(a: nat, b: nat)
    requires Decimal(a) == Decimal(b)
    ensures a == b
  {
    if a >= 10 && b >= 10 {
      var x, y := Decimal(a / 10), Decimal(b / 10);
      assert Decimal(a)[..|x|] == x && Decimal(b)[..|y|] == y;
      DecimalInjective(a / 10, b / 10);
      assert Decimal(a)[|x|] == Digit(a % 10) && Decimal(b)[|y|] == Digit(b % 10);
      DigitInjective(a % 10, b % 10);
    } else if a < 10 && b < 10 {
      DigitInjective(a, b);
    } else {
      DecimalLength(a);
      DecimalLength(b);
    }
  }

  lemma DigitInjective(d: nat, e: nat)
    requires d < 10 && e < 10 && Digit(d) == Digit(e)
    ensures d == e
  {
    if d < e {
      DigitsIncrease(d, e);
    } else if e < d {
      DigitsIncrease(e, d);
    }
  }

  lemma DecimalLength(n: nat)
    ensures |Decimal(n)| >= 1 && (n >= 10 ==> |Decimal(n)| >= 2)
  {
  }

  lemma StemInjective(mode: string, a: nat, b: nat)
    ensures Stem(mode, a) == Stem(mode, b) <==> a == b
  {
    var p := mode + "-v2-";
    if Stem(mode, a) == Stem(mode, b) {
      assert Stem(mode, a)[|p|..] == Decimal(a) && Stem(mode, b)[|p|..] == Decimal(b);
      DecimalInjective(a, b);
    }
  }

  lemma NewIdIsNew(s: Settings, captures: seq<nat>, files: seq<File>, k: nat)
    requires Produced(s, captures, files) && NamesInOrder(s.mode, captures) && k < |files|
    ensures Stem(s.mode, captures[k]) !in IdsOf(files[..k])
  {
    forall f | f in files[..k] && f.content.Some?
      ensures f.content.value.body.id != Stem(s.mode, captures[k])
    {
      var i :| 0 <= i < k && files[..k][i] == f;
      assert ProducedAt(s, captures, files, i);
      CapturesDiffer(s.mode, captures, i, k);
      StemInjective(s.mode, captures[i], captures[k]);
    }
  }

  /** A produced file passes the producer's check, and the verifier's exactly when its time is later. */
  lemma ProducedFile(s: Settings, captures: seq<nat>, files: seq<File>, k: nat)
    requires Produced(s, captures, files) && NamesInOrder(s.mode, captures) && k < |files|
    ensures Linked(files, s.mode, k)
    ensures SoundAt(files, s.mode, k) <==> (k > 0 ==> captures[k - 1] < captures[k])
  {
    assert ProducedAt(s, captures, files, k) && ProducedAt(s, captures, files, 0);
    NewIdIsNew(s, captures, files, k);
    if k > 0 {
      assert ProducedAt(s, captures, files, k - 1);
    }
    hide IdsOf, Stem, Produced, NamesInOrder;
  }

  /** A chain produced in name order passes the producer's check; the verifier asks for rising times too. */
  lemma ProducedIsSoundIff(s: Settings, captures: seq<nat>, files: seq<File>)
    requires Produced(s, captures, files) && NamesInOrder(s.mode, captures)
    ensures VerifiedReceipts(files, s.mode)
    ensures SoundChain(files, s.mode) <==> TimesIncrease(captures)
  {
    forall k | 0 <= k < |files|
      ensures Linked(files, s.mode, k)
      ensures SoundAt(files, s.mode, k) <==> (k > 0 ==> captures[k - 1] < captures[k])
    {
      ProducedFile(s, captures, files, k);
    }
    hide Linked, SoundAt;
    if SoundChain(files, s.mode) {
      forall k | 0 < k < |captures|
        ensures captures[k - 1] < captures[k]
      {
        assert SoundAt(files, s.mode, k);
      }
    } else {
      var k :| 0 <= k < |files| && !SoundAt(files, s.mode, k);
      ProducedFile(s, captures, files, k);
      assert k > 0 && !(captures[k - 1] < captures[k]);
    }
  }

  lemma NamesPrefix(mode: string, captures: seq<nat>)
    requires captures != [] && NamesInOrder(mode, captures)
    ensures NamesInOrder(mode, captures[..|captures| - 1])
  {
    var front := captures[..|captures| - 1];
    forall i | 0 < i < |front|
      ensures NameLess(Stem(mode, front[i - 1]), Stem(mode, front[i]))
    {
      assert front[i - 1] == captures[i - 1] && front[i] == captures[i];
    }
  }

  lemma NoSuchName(s: Settings, captures: seq<nat>, files: seq<File>, c: nat)
    requires Produced(s, captures, files) && c !in captures
    ensures !exists f :: f in files && f.stem == Stem(s.mode, c)
  {
    forall f | f in files
      ensures f.stem != Stem(s.mode, c)
    {
      var i :| 0 <= i < |files| && files[i] == f;
      assert ProducedAt(s, captures, files, i);
      StemInjective(s.mode, captures[i], c);
    }
  }

  lemma ProducedExtends(s: Settings, front: seq<nat>, files: seq<File>, c: nat)
    requires Produced(s, front, files)
    ensures Produced(s, front + [c], files + [NewFile(s, c, if files == [] then None else DigestOf(files[|files| - 1]))])
  {
    var all := files + [NewFile(s, c, if files == [] then None else DigestOf(files[|files| - 1]))];
    forall i | 0 <= i < |all|
      ensures ProducedAt(s, front + [c], all, i)
    {
      if i < |files| {
        assert ProducedAt(s, front, files, i);
      }
    }
  }

  /** Building never fails while names come in order, and yields the linked chain. */
  lemma {:induction false} BuildAllProduces(s: Settings, captures: seq<nat>)
    requires NamesInOrder(s.mode, captures)
    ensures BuildAll(s, captures).Some? && Produced(s, captures, BuildAll(s, captures).value)
  {
    if captures != [] {
      var front, c := captures[..|captures| - 1], captures[|captures| - 1];
      assert front + [c] == captures;
      NamesPrefix(s.mode, captures);
      BuildAllProduces(s, front);
      var files := BuildAll(s, front).value;
      ProducedIsSoundIff(s, front, files);
      assert c !in front by {
        forall i | 0 <= i < |front|
          ensures front[i] != c
        {
          CapturesDiffer(s.mode, captures, i, |captures| - 1);
        }
      }
      NoSuchName(s, front, files, c);
      ProducedExtends(s, front, files, c);
      if files != [] {
        assert ProducedAt(s, front, files, |files| - 1);
        assert NameLess(Stem(s.mode, captures[|front| - 1]), Stem(s.mode, captures[|front|]));
      }
      hide VerifiedReceipts, SoundChain, NameLess, Stem;
    }
  }

  /** Increasing capture times written with equally many digits are in order. */
  lemma EqualWidthIsInOrder(mode: string, captures: seq<nat>)
    requires TimesIncrease(captures)
    requires forall i :: 0 < i < |captures| ==> |Decimal(captures[i - 1])| == |Decimal(captures[i])|
    ensures InOrder(mode, captures)
  {
    forall i | 0 < i < |captures|
      ensures NameLess(Stem(mode, captures[i - 1]), Stem(mode, captures[i]))
    {
      EqualWidthNames(mode, captures[i - 1], captures[i]);
    }
  }

  /** A new receipt whose name sorts before the last one breaks the chain, and no later build succeeds. */
  lemma OutOfOrderNameIsRejected(s: Settings, captures: seq<nat>, late: nat)
    requires captures != [] && NamesInOrder(s.mode, captures) && late !in captures
    requires !NameLess(Stem(s.mode, captures[|captures| - 1]), Stem(s.mode, late))
    ensures BuildAll(s, captures + [late]).Some?
    ensures var files := BuildAll(s, captures + [late]).value;
            && !AcceptsFull(files, s.mode) && !VerifiedReceipts(files, s.mode)
            && forall next :: BuildReceipt(files, s, next).None?
  {
    BuildAllProduces(s, captures);
    var files := BuildAll(s, captures).value;
    ProducedIsSoundIff(s, captures, files);
    hide VerifiedReceipts, SoundChain, NameLess, Stem, NamesInOrder, BuildAll, Produced, Insert, NewFile;
    LateIsInserted(s, captures, files, late);
    var n := |files| - 1;
    var f := NewFile(s, late, DigestOf(files[n]));
    var front := Insert(files[..n], f);
    var bad := front + [files[n]];
    InsertHolds(files[..n], f);
    NewFileIs(s, late, DigestOf(files[n]));
    MislinkedIsRejected(s, captures, files, front, f);
    FullIffSound(bad, s.mode);
  }

  lemma NewFileIs(s: Settings, captured: nat, previous: Option<Digest>)
    ensures var f := NewFile(s, captured, previous);
            && f.stem == Stem(s.mode, captured) && f.content.Some?
            && f.content.value.digest == Some(Sha256(f.content.value.body))
            && f.content.value.body.previous == previous && f.content.value.body.captured == captured
  {
  }

  /** A file the producer accepts on reading the directory back. */
  ghost predicate ReadsBack(files: seq<File>, mode: string, k: nat)
    requires k < |files|
  {
    && files[k].content.Some?
    && var r := files[k].content.value;
       && r.body.schema == "oci_dbfree_health_receipt_v2" && r.body.mode == mode && r.body.id == files[k].stem
       && r.digest.Some? && r.digest.value.body == r.body
       && (k == 0 ==> r.body.previous.None?)
       && (k > 0 ==> files[k - 1].content.Some? && r.body.previous == files[k - 1].content.value.digest)
  }

  /** The directory after file f was added, at its place i in name order, as the receipt of this capture. */
  ghost predicate Published(files: seq<File>, s: Settings, captured: nat, after: seq<File>, f: File, i: nat) {
    && i <= |files| && after == files[..i] + [f] + files[i..]
    && (i > 0 ==> NameLess(files[i - 1].stem, f.stem)) && (forall j :: i <= j < |files| ==> !NameLess(files[j].stem, f.stem))
    && f.content.Some? && SelfConsistent(f, f.content.value, s.mode)
    && var b := f.content.value.body;
       && b.id == f.stem && b.captured == captured && b.campaign == s.campaign && b.source == s.source
       && (files == [] ==> b.previous.None?)
       && (files != [] ==> files[|files| - 1].content.Some? && b.previous == files[|files| - 1].content.value.digest)
  }

  /**
   One build: it fails exactly when some receipt of the directory does not read back or one of that name is
   there already; otherwise the directory gains one receipt, of this capture, campaign and source, that is
   consistent in itself and names the last file's digest.
   */
  lemma BuildOutcome(files: seq<File>, s: Settings, captured: nat)
    ensures var out, stem := BuildReceipt(files, s, captured), s.mode + "-v2-" + Decimal(captured);
            && (out.Some? <==> (forall k :: 0 <= k < |files| ==> ReadsBack(files, s.mode, k)) && forall f :: f in files ==> f.stem != stem)
            && (out.Some? ==> exists f: File, i: nat :: Published(files, s, captured, out.value, f, i))
  {
    var stem := s.mode + "-v2-" + Decimal(captured);
    assert stem == Stem(s.mode, captured);
    ReadsBackIff(files, s.mode);
    if BuildReceipt(files, s, captured).Some? {
      var previous := if files == [] then None else DigestOf(files[|files| - 1]);
      var f := NewFile(s, captured, previous);
      ValidRecordIff(f, f.content.value, s.mode);
      hide VerifiedReceipts, SelfConsistent, Stem, NameLess;
      var i := InsertedAt(files, f);
      if files != [] {
        assert ReadsBack(files, s.mode, |files| - 1);
      }
      assert Published(files, s, captured, BuildReceipt(files, s, captured).value, f, i);
    }
  }

  lemma ReadsBackIff(files: seq<File>, mode: string)
    ensures VerifiedReceipts(files, mode) <==> forall k :: 0 <= k < |files| ==> ReadsBack(files, mode, k)
  {
    if VerifiedReceipts(files, mode) {
      forall k | 0 <= k < |files|
        ensures ReadsBack(files, mode, k)
      {
        assert Linked(files, mode, k) && (k > 0 ==> Linked(files, mode, k - 1));
      }
    } else {
      var k :| 0 <= k < |files| && !Linked(files, mode, k);
      assert !ReadsBack(files, mode, k);
    }
  }

  /** The new file goes after the last name before its own. */
  lemma {:induction false} InsertedAt(files: seq<File>, f: File) returns (i: nat)
    ensures i <= |files| && Insert(files, f) == files[..i] + [f] + files[i..]
    ensures (i > 0 ==> NameLess(files[i - 1].stem, f.stem)) && forall j :: i <= j < |files| ==> !NameLess(files[j].stem, f.stem)
  {
    hide NameLess;
    if files == [] || NameLess(files[|files| - 1].stem, f.stem) {
      i := |files|;
      assert files[..i] == files && files[i..] == [];
    } else {
      var front, last := files[..|files| - 1], files[|files| - 1];
      i := InsertedAt(front, f);
      assert front[..i] == files[..i] && front[i..] + [last] == files[i..];
    }
  }

  /** A receipt whose name does not follow the last one's is published before it. */
  lemma LateIsInserted(s: Settings, captures: seq<nat>, files: seq<File>, late: nat)
    requires captures != [] && Produced(s, captures, files) && BuildAll(s, captures) == Some(files)
    requires VerifiedReceipts(files, s.mode) && late !in captures
    requires !NameLess(Stem(s.mode, captures[|captures| - 1]), Stem(s.mode, late))
    ensures files != [] && |files| == |captures|
    ensures var n := |files| - 1;
            BuildAll(s, captures + [late]) == Some(Insert(files[..n], NewFile(s, late, DigestOf(files[n]))) + [files[n]])
  {
    var all, n := captures + [late], |files| - 1;
    assert all[..|all| - 1] == captures && all[|all| - 1] == late;
    NoSuchName(s, captures, files, late);
    assert ProducedAt(s, captures, files, n);
    hide VerifiedReceipts, Produced, NameLess, Stem;
    var f := NewFile(s, late, DigestOf(files[n]));
    assert files[n].stem == Stem(s.mode, captures[n]) && f.stem == Stem(s.mode, late);
    hide NewFile, ProducedAt;
    assert Insert(files, f) == Insert(files[..n], f) + [files[n]];
    hide Insert;
    assert BuildReceipt(files, s, late) == Some(Insert(files, f));
  }

  /** The name of a receipt already published is refused. */
  lemma RepeatedCaptureFails(s: Settings, captures: seq<nat>, c: nat)
    requires NamesInOrder(s.mode, captures) && c in captures
    ensures BuildAll(s, captures + [c]).None?
  {
    var all := captures + [c];
    assert all[..|all| - 1] == captures && all[|all| - 1] == c;
    BuildAllProduces(s, captures);
    var files := BuildAll(s, captures).value;
    var i :| 0 <= i < |captures| && captures[i] == c;
    assert ProducedAt(s, captures, files, i);
    assert files[i] in files && files[i].stem == Stem(s.mode, c);
  }

  /** The producer can go on from a chain exactly when its names came in order. */
  lemma {:induction false} BuildContinuesIff(s: Settings, captures: seq<nat>)
    ensures BuildAll(s, captures).Some? && VerifiedReceipts(BuildAll(s, captures).value, s.mode) <==> NamesInOrder(s.mode, captures)
  {
    hide VerifiedReceipts, NamesInOrder, SoundChain;
    if NamesInOrder(s.mode, captures) {
      BuildAllProduces(s, captures);
      ProducedIsSoundIff(s, captures, BuildAll(s, captures).value);
    } else {
      FirstDisorderFails(s, captures);
      if BuildAll(s, captures).Some? {
        var front, c := captures[..|captures| - 1], captures[|captures| - 1];
        assert front + [c] == captures;
        BuildContinuesIff(s, front);
        OutOfOrderNameIsRejected(s, front, c);
      }
    }
  }

  /** Names out of order: nothing was built, or only the last receipt is out of place. */
  lemma {:induction false} FirstDisorderFails(s: Settings, captures: seq<nat>)
    requires !NamesInOrder(s.mode, captures)
    ensures |captures| >= 2
    ensures var front, c := captures[..|captures| - 1], captures[|captures| - 1];
            BuildAll(s, captures).Some? ==>
              && NamesInOrder(s.mode, front) && c !in front
              && !NameLess(Stem(s.mode, front[|front| - 1]), Stem(s.mode, c))
  {
    var front, c := captures[..|captures| - 1], captures[|captures| - 1];
    assert front + [c] == captures;
    if NamesInOrder(s.mode, front) {
      assert !NameLess(Stem(s.mode, front[|front| - 1]), Stem(s.mode, c));
      if c in front {
        RepeatedCaptureFails(s, front, c);
      }
    } else {
      FirstDisorderFails(s, front);
      if BuildAll(s, front).Some? {
        var start, d := front[..|front| - 1], front[|front| - 1];
        assert start + [d] == front;
        OutOfOrderNameIsRejected(s, start, d);
        assert BuildReceipt(BuildAll(s, front).value, s, c).None?;
      }
    }
  }

  /**
   Main result. Building a chain capture by capture succeeds and satisfies the independent verifier
   exactly when the captures increase both in time and in name order; latest-only mode then accepts too.
   */
  lemma BuiltChainAcceptedIff(s: Settings, captures: seq<nat>)
    requires captures != []
    ensures BuildAll(s, captures).Some? && AcceptsFull(BuildAll(s, captures).value, s.mode) <==> InOrder(s.mode, captures)
    ensures InOrder(s.mode, captures) ==> AcceptsLatest(BuildAll(s, captures).value, s.mode)
  {
    hide VerifiedReceipts, NamesInOrder, SoundChain, TimesIncrease, AcceptsLatest;
    if NamesInOrder(s.mode, captures) {
      BuildAllProduces(s, captures);
      var files := BuildAll(s, captures).value;
      ProducedIsSoundIff(s, captures, files);
      FullIffSound(files, s.mode);
      assert files != [];
      if AcceptsFull(files, s.mode) {
        FullImpliesLatest(files, s.mode);
      }
    } else {
      FirstDisorderFails(s, captures);
      if BuildAll(s, captures).Some? {
        var front, c := captures[..|captures| - 1], captures[|captures| - 1];
        assert front + [c] == captures;
        OutOfOrderNameIsRejected(s, front, c);
      }
    }
  }

  /** Times that gain a digit: captures at 9 and 10 increase, and their chain is refused. */
  lemma NineThenTenIsRejected(s: Settings)
    ensures TimesIncrease([9, 10])
    ensures BuildAll(s, [9, 10]).Some? && !AcceptsFull(BuildAll(s, [9, 10]).value, s.mode)
  {
    var p := s.mode + "-v2-";
    assert Decimal(10) == "10";
    assert Decimal(9) == "9";
    assert Stem(s.mode, 9) + ".json" == p + "9.json" && Stem(s.mode, 10) + ".json" == p + "10.json";
    assert !Less("9.json", "10.json");
    LessAfterPrefix(p, "9.json", "10.json");
    assert [9] + [10] == [9, 10];
    OutOfOrderNameIsRejected(s, [9], 10);
  }

  lemma {:induction false} InsertHolds(files: seq<File>, f: File)
    ensures f in Insert(files, f)
    ensures forall g :: g in Insert(files, f) ==> g in files || g == f
  {
    if files != [] && !NameLess(files[|files| - 1].stem, f.stem) {
      InsertHolds(files[..|files| - 1], f);
    }
  }

  /** The inserted receipt claims the last one as predecessor but does not stand after it. */
  lemma MislinkedIsRejected(s: Settings, captures: seq<nat>, files: seq<File>, front: seq<File>, f: File)
    requires Produced(s, captures, files) && NamesInOrder(s.mode, captures) && files != []
    requires f.content.Some? && f.content.value.body.previous == DigestOf(files[|files| - 1])
    requires f in front && forall g :: g in front ==> g in files[..|files| - 1] || g == f
    requires f.content.value.body.captured !in captures && f.content.value.digest == Some(Sha256(f.content.value.body))
    ensures !VerifiedReceipts(front + [files[|files| - 1]], s.mode) && !SoundChain(front + [files[|files| - 1]], s.mode)
  {
    var last := files[|files| - 1];
    var bad := front + [last];
    assert ProducedAt(s, captures, files, |files| - 1);
    var k :| 0 <= k < |front| && front[k] == f;
    assert bad[k] == f;
    if k > 0 {
      assert front[k - 1] in front && bad[k - 1] == front[k - 1];
      DifferentDigests(s, captures, files, front[k - 1], f);
    }
    assert f.content.value.body.previous != (if k == 0 then None else DigestOf(bad[k - 1]));
    hide Produced, NamesInOrder, IdsOf;
    assert !Linked(bad, s.mode, k) && !SoundAt(bad, s.mode, k);
  }

  lemma DifferentDigests(s: Settings, captures: seq<nat>, files: seq<File>, g: File, f: File)
    requires Produced(s, captures, files) && NamesInOrder(s.mode, captures) && files != []
    requires g in files[..|files| - 1] || g == f
    requires f.content.Some? && f.content.value.digest == Some(Sha256(f.content.value.body))
    requires f.content.value.body.captured !in captures
    ensures DigestOf(g) != DigestOf(files[|files| - 1])
  {
    var n := |files| - 1;
    assert ProducedAt(s, captures, files, n);
    assert captures[n] in captures;
    if g != f {
      var i :| 0 <= i < n && files[..n][i] == g;
      assert ProducedAt(s, captures, files, i);
      CapturesDiffer(s.mode, captures, i, n);
    }
  }

  // ---------------------------------------------------------------- the verifier as it runs

  method VerifyReceipts(files: seq<File>, mode: string, latestOnly: bool) returns (accepted: bool)
    ensures accepted == if latestOnly then AcceptsLatest(files, mode) else AcceptsFull(files, mode)
  {
    if files == [] {
      return false;
    }
    var checked := if latestOnly && |files| > 2 then files[|files| - 2..] else files;
    var v := FRESH;
    if latestOnly && |files| > 2 {
      var prior := files[|files| - 3];
      if prior.content.None? {
        return false;
      }
      v := v.(previousHash := prior.content.value.digest, previousTime := Some(prior.content.value.body.captured));
    }
    ghost var start := v;
    for i := 0 to |checked|
      invariant v == VerifyAll(start, checked[..i], mode)
    {
      assert checked[..i + 1][..i] == checked[..i];
      v := VerifyOne(v, checked[i], mode);
    }
    assert checked[..|checked|] == checked;
    accepted := v.ok;
  }
}
