/**
 The hourly FAST tape scan, which reads only new manifests and keeps running totals in a state file,
 against the full scan, which reads every manifest and hashes every segment.

 Manifest names are modelled by their rank in name order. A manifest's JSON fields are values of
 `Value`; what `int()` makes of a value that is not a JSON integer is part of the value.
 */
module FastScan {
  import opened Prelude

  datatype Value =
    | Absent
    | Int(n: int)
    | Bool(b: bool)
    | Text(text: string, number: Option<int>)
    | Other(number: Option<int>, falsy: bool)
  {
    /** `isinstance(value, int)`, which a JSON boolean passes too. */
    predicate IsInt() { Int? || Bool? }

    /** A JSON integer that is not negative and not a boolean. */
    predicate IsNat() { Int? && n >= 0 }

    function AsInt(): int {
      if Int? then n else if Bool? && b then 1 else 0
    }

    /** `int(value)`, None when it raises. */
    function ToInt(): Option<int> {
      match this
      case Absent => None
      case Int(n) => Some(n)
      case Bool(b) => Some(if b then 1 else 0)
      case Text(_, number) => number
      case Other(number, _) => number
    }

    /** `int(value or 0)`. */
    function ToIntOrZero(): Option<int> {
      if Absent? || (Text? && text == "") || (Other? && falsy) then Some(0) else ToInt()
    }

    /** The value equals an optional digest, null standing for no digest. */
    predicate Is(digest: Option<string>) {
      if digest.None? then Absent? else Text? && text == digest.value
    }
  }

  /** `dataName` is the resolved data file; `local` says it stays inside the market directory. */
  datatype Payload = Payload(
    previous: Value, digest: Value, size: Value,
    campaign: Value, market: Value, source: Value, schema: Value,
    bucket: Value, received: Value, plain: Value,
    dataName: string, local: bool)

  datatype Content = Unreadable | NotJson | NotObject | Object(payload: Payload)
  datatype Manifest = Manifest(name: int, bytes: nat, content: Content)

  /** `isSealed` says that the file is a finished segment lying directly in the market directory. */
  datatype DataFile = DataFile(size: nat, digest: string, isSealed: bool)
  datatype Partial = Partial(bucket: Option<int>, size: Option<nat>)
  datatype Tape = Tape(manifests: seq<Manifest>, data: map<string, DataFile>, partials: seq<Partial>)

  /** What the manifests of one market must declare. */
  datatype Identity = Identity(campaign: string, market: string, source: string, schema: string)

  datatype Fault =
    | Malformed | DataSize | DataHash | PreviousHash
    | WrongCampaign | WrongMarket | WrongSource | WrongSchema
    | CountDecreased | CountChanged | PartialName | PartialStat

  datatype Sample = Sample(bucket: int, received: int, compressed: int, manifestBytes: int, plain: int)

  ghost predicate Sorted(ms: seq<Manifest>) {
    forall i, j :: 0 <= i < j < |ms| ==> ms[i].name < ms[j].name
  }

  function IdentityFaults(id: Identity, p: Payload): seq<Fault> {
    (if p.campaign.Is(Some(id.campaign)) then [] else [WrongCampaign]) +
    (if p.market.Is(Some(id.market)) then [] else [WrongMarket]) +
    (if p.source.Is(Some(id.source)) then [] else [WrongSource]) +
    (if p.schema.Is(Some(id.schema)) then [] else [WrongSchema])
  }

  // ---------------------------------------------------------------- full scan

  /** `aborted` is the uncaught exception of a manifest that is JSON but not an object. */
  datatype Full = Full(samples: seq<Sample>, previous: Option<string>, faults: seq<Fault>, aborted: bool)

  function Actual(tape: Tape, p: Payload): Option<string> {
    if p.dataName in tape.data then Some(tape.data[p.dataName].digest) else None
  }

  function ActualOf(tape: Tape, m: Manifest): Option<string> {
    if m.content.Object? then Actual(tape, m.content.payload) else None
  }

  function FullFaults(id: Identity, tape: Tape, previous: Option<string>, p: Payload): seq<Fault> {
    (if p.digest.Is(Actual(tape, p)) then [] else [DataHash]) +
    (if p.previous.Is(previous) then [] else [PreviousHash]) +
    IdentityFaults(id, p)
  }

  function FullSample(m: Manifest, p: Payload): Option<Sample> {
    match (p.bucket.ToInt(), p.received.ToInt(), p.size.ToIntOrZero(), p.plain.ToIntOrZero())
    case (Some(bucket), Some(received), Some(compressed), Some(plain)) =>
      Some(Sample(bucket, received, compressed, m.bytes, plain))
    case _ => None
  }

  function FullManifest(id: Identity, tape: Tape, f: Full, m: Manifest): Full {
    if f.aborted then f
    else match m.content
    case NotObject => f.(aborted := true)
    case Object(p) =>
      var faults := f.faults + FullFaults(id, tape, f.previous, p);
      var sample := FullSample(m, p);
      if sample.None? then f.(faults := faults + [Malformed])
      else Full(f.samples + [sample.value], Actual(tape, p), faults, false)
    case _ => f.(faults := f.faults + [Malformed])
  }

  /** The reference: one pass over every manifest from nothing. */
  function FullScan(id: Identity, tape: Tape, ms: seq<Manifest>): Full {
    if ms == [] then Full([], None, [], false)
    else FullManifest(id, tape, FullScan(id, tape, ms[..|ms| - 1]), ms[|ms| - 1])
  }

  function Compressed(samples: seq<Sample>): int {
    if samples == [] then 0 else Compressed(samples[..|samples| - 1]) + samples[|samples| - 1].compressed
  }

  function ManifestBytes(samples: seq<Sample>): int {
    if samples == [] then 0 else ManifestBytes(samples[..|samples| - 1]) + samples[|samples| - 1].manifestBytes
  }

  /** The greatest plaintext size, zero for no samples. */
  ghost predicate IsMaxPlain(samples: seq<Sample>, n: int) {
    && (forall i :: 0 <= i < |samples| ==> samples[i].plain <= n)
    && (if samples == [] then n == 0 else exists i :: 0 <= i < |samples| && samples[i].plain == n)
  }

  /** The latest receipt time, None for no samples. */
  ghost predicate IsLatest(samples: seq<Sample>, t: Option<int>) {
    && (t.None? <==> samples == [])
    && (forall i :: 0 <= i < |samples| && t.Some? ==> samples[i].received <= t.value)
    && (t.Some? ==> exists i :: 0 <= i < |samples| && samples[i].received == t.value)
  }

  // ---------------------------------------------------------------- FAST scan

  datatype Totals = Totals(finalized: int, manifestBytes: int, maxPlain: int, latest: Option<int>, last: Option<string>)

  /** The persisted cursor of one market. */
  datatype Cursor = Cursor(name: Option<int>, count: nat, totals: Totals, metadataOnly: bool)

  const BLANK_CURSOR := Cursor(None, 0, Totals(0, 0, 0, None, None), false)

  datatype Fast = Fast(totals: Totals, faults: seq<Fault>)

  /** The fields a manifest must carry before FAST will count it. */
  predicate Usable(tape: Tape, p: Payload) {
    && p.local
    && p.dataName in tape.data && tape.data[p.dataName].isSealed
    && p.digest.Text? && p.digest.text != ""
    && p.size.IsInt() && p.size.AsInt() >= 0
  }

  predicate Measured(p: Payload) {
    p.bucket.IsNat() && p.received.IsNat() && p.plain.IsNat()
  }

  function Counted(t: Totals, tape: Tape, m: Manifest, p: Payload, last: string): Totals
    requires Usable(tape, p) && Measured(p)
  {
    Totals(t.finalized + tape.data[p.dataName].size,
           t.manifestBytes + m.bytes,
           if p.plain.n > t.maxPlain then p.plain.n else t.maxPlain,
           Some(if t.latest.Some? && t.latest.value > p.received.n then t.latest.value else p.received.n),
           Some(last))
  }

  function FastManifest(id: Identity, tape: Tape, metadataOnly: bool, f: Fast, m: Manifest): Fast {
    if !m.content.Object? || !Usable(tape, m.content.payload) then f.(faults := f.faults + [Malformed])
    else
      var p := m.content.payload;
      var data := tape.data[p.dataName];
      var early := f.faults + (if data.size == p.size.AsInt() then [] else [DataSize]) + IdentityFaults(id, p);
      if !Measured(p) then f.(faults := early + [Malformed])
      else
        var last := if metadataOnly then p.digest.text else data.digest;
        Fast(Counted(f.totals, tape, m, p, last),
             early + (if p.previous.Is(f.totals.last) then [] else [PreviousHash])
                   + (if last == p.digest.text then [] else [DataHash]))
  }

  function FastManifests(id: Identity, tape: Tape, metadataOnly: bool, f: Fast, ms: seq<Manifest>): Fast {
    if ms == [] then f
    else FastManifest(id, tape, metadataOnly, FastManifests(id, tape, metadataOnly, f, ms[..|ms| - 1]), ms[|ms| - 1])
  }

  predicate IsNew(cursor: Cursor, m: Manifest) {
    cursor.name.None? || m.name > cursor.name.value
  }

  function NewManifests(cursor: Cursor, ms: seq<Manifest>): seq<Manifest> {
    if ms == [] then []
    else
      NewManifests(cursor, ms[..|ms| - 1]) + if IsNew(cursor, ms[|ms| - 1]) then [ms[|ms| - 1]] else []
  }

  function PartialFaults(ps: seq<Partial>): seq<Fault> {
    if ps == [] then []
    else
      var p := ps[|ps| - 1];
      PartialFaults(ps[..|ps| - 1]) +
      if p.bucket.None? then [PartialName] else if p.size.None? then [PartialStat] else []
  }

  function CountFaults(cursor: Cursor, present: nat, added: nat): seq<Fault> {
    if cursor.name.None? then []
    else
      (if present < cursor.count then [CountDecreased] else []) +
      (if present != cursor.count + added then [CountChanged] else [])
  }

  /** One market of one FAST run: the cursor it would persist and the faults it reports. */
  function FastMarket(id: Identity, tape: Tape, cursor: Cursor): (Cursor, seq<Fault>) {
    var added := NewManifests(cursor, tape.manifests);
    var metadataOnly := cursor.name.None? && cursor.count == 0;
    var f := FastManifests(id, tape, metadataOnly, Fast(cursor.totals, []), added);
    (Cursor(if added != [] && f.faults == [] then Some(added[|added| - 1].name) else cursor.name,
            cursor.count + |added|, f.totals, cursor.metadataOnly || (metadataOnly && added != [])),
     CountFaults(cursor, |tape.manifests|, |added|) + f.faults + PartialFaults(tape.partials))
  }

  datatype World = World(futures: Tape, spot: Tape)
  datatype State = State(futures: Cursor, spot: Cursor)
  datatype Identities = Identities(futures: Identity, spot: Identity)

  const BLANK_STATE := State(BLANK_CURSOR, BLANK_CURSOR)

  /** One FAST run over both markets: the state file is replaced only when nothing was reported. */
  function FastRun(ids: Identities, w: World, st: State): (State, seq<Fault>) {
    var (futures, e1) := FastMarket(ids.futures, w.futures, st.futures);
    var (spot, e2) := FastMarket(ids.spot, w.spot, st.spot);
    (if e1 + e2 == [] then State(futures, spot) else st, e1 + e2)
  }

  /** The state file after a whole history of runs, one per entry. */
  function FastRuns(ids: Identities, worlds: seq<World>): State {
    if worlds == [] then BLANK_STATE
    else FastRun(ids, worlds[|worlds| - 1], FastRuns(ids, worlds[..|worlds| - 1])).0
  }

  predicate CleanRun(ids: Identities, worlds: seq<World>, k: nat)
    requires k < |worlds|
  {
    FastRun(ids, worlds[k], FastRuns(ids, worlds[..k])).1 == []
  }

  // ---------------------------------------------------------------- what a clean history establishes

  /** The directory only gains later-named manifests; nothing already there changes. */
  ghost predicate Grows(before: Tape, after: Tape) {
    && before.manifests <= after.manifests
    && Sorted(after.manifests)
    && forall name :: name in before.data ==> name in after.data && after.data[name] == before.data[name]
  }

  function Declared(m: Manifest): Option<string> {
    if m.content.Object? && m.content.payload.digest.Text? then Some(m.content.payload.digest.text) else None
  }

  function LastDeclared(ms: seq<Manifest>): Option<string> {
    if ms == [] then None else Declared(ms[|ms| - 1])
  }

  /** The manifest names a finished segment in its own directory, a digest and a size. */
  ghost predicate NamesSegment(tape: Tape, p: Payload) {
    && p.local && p.dataName in tape.data && tape.data[p.dataName].isSealed
    && p.digest.Text? && |p.digest.text| > 0
    && (p.size.Bool? || (p.size.Int? && p.size.n >= 0))
  }

  /** The declared size is the size of the segment; to Python `true` is one and `false` is zero. */
  ghost predicate DeclaresSize(v: Value, size: nat) {
    v == Int(size) || (v == Bool(true) && size == 1) || (v == Bool(false) && size == 0)
  }

  /** Bucket, receipt time and plaintext size are JSON integers that are not negative. */
  ghost predicate CarriesNumbers(p: Payload) {
    && p.bucket.Int? && p.bucket.n >= 0
    && p.received.Int? && p.received.n >= 0
    && p.plain.Int? && p.plain.n >= 0
  }

  /** Campaign, market, source and schema are the expected ones. */
  ghost predicate Identified(id: Identity, p: Payload) {
    && p.campaign.Text? && p.campaign.text == id.campaign
    && p.market.Text? && p.market.text == id.market
    && p.source.Text? && p.source.text == id.source
    && p.schema.Text? && p.schema.text == id.schema
  }

  /** A manifest whose fields and data file size are in order. */
  ghost predicate Sound(id: Identity, tape: Tape, m: Manifest) {
    && m.content.Object?
    && var p := m.content.payload;
       NamesSegment(tape, p) && DeclaresSize(p.size, tape.data[p.dataName].size) && Identified(id, p) && CarriesNumbers(p)
  }

  /** The manifest names this digest as its predecessor's, or none for none. */
  ghost predicate NamesPrevious(m: Manifest, digest: Option<string>) {
    && m.content.Object?
    && var v := m.content.payload.previous;
       if digest.None? then v.Absent? else v.Text? && v.text == digest.value
  }

  /** Every manifest is sound and names its predecessor's declared digest. */
  ghost predicate Chained(id: Identity, tape: Tape, ms: seq<Manifest>) {
    && (forall i :: 0 <= i < |ms| ==> Sound(id, tape, ms[i]))
    && (forall i :: 0 <= i < |ms| ==> NamesPrevious(ms[i], LastDeclared(ms[..i])))
  }

  /** The stored segment really hashes to what its manifest declares. */
  ghost predicate Genuine(tape: Tape, m: Manifest) {
    && m.content.Object?
    && var p := m.content.payload;
       p.dataName in tape.data && p.digest.Text? && p.digest.text == tape.data[p.dataName].digest
  }

  /** Running totals equal the aggregates of the samples of a full pass. */
  ghost predicate Agrees(t: Totals, samples: seq<Sample>) {
    && t.finalized == Compressed(samples)
    && t.manifestBytes == ManifestBytes(samples)
    && IsMaxPlain(samples, t.maxPlain)
    && IsLatest(samples, t.latest)
  }

  /** Running totals stand at the end of the chained manifests `ms`. */
  ghost predicate Stands(id: Identity, tape: Tape, t: Totals, ms: seq<Manifest>) {
    && Chained(id, tape, ms)
    && t.last == LastDeclared(ms)
    && Agrees(t, FullScan(id, tape, ms).samples)
  }

  function LastName(ms: seq<Manifest>): Option<int> {
    if ms == [] then None else Some(ms[|ms| - 1].name)
  }

  /** The cursor covers exactly the manifests `ms`. */
  ghost predicate Covers(id: Identity, tape: Tape, cursor: Cursor, ms: seq<Manifest>) {
    cursor.count == |ms| && cursor.name == LastName(ms) && Stands(id, tape, cursor.totals, ms)
  }

  lemma ChainedExtends(id: Identity, tape: Tape, ms: seq<Manifest>, m: Manifest)
    requires Chained(id, tape, ms) && Sound(id, tape, m) && NamesPrevious(m, LastDeclared(ms))
    ensures Chained(id, tape, ms + [m])
  {
    var all := ms + [m];
    forall i | 0 <= i < |all|
      ensures NamesPrevious(all[i], LastDeclared(all[..i]))
    {
      assert i < |ms| ==> all[..i] == ms[..i];
      assert i == |ms| ==> all[..i] == ms;
    }
  }

  lemma ChainedPrefix(id: Identity, tape: Tape, ms: seq<Manifest>, k: nat)
    requires Chained(id, tape, ms) && k <= |ms|
    ensures Chained(id, tape, ms[..k])
  {
    forall i | 0 <= i < k
      ensures NamesPrevious(ms[..k][i], LastDeclared(ms[..k][..i]))
    {
      assert ms[..k][..i] == ms[..i];
    }
  }

  /** On sound manifests the full scan neither aborts nor skips, and its sample is the one FAST counted. */
  lemma FullReadsSound(id: Identity, tape: Tape, f: Full, m: Manifest)
    requires !f.aborted && Sound(id, tape, m)
    ensures var p := m.content.payload;
            var sample := Sample(p.bucket.n, p.received.n, tape.data[p.dataName].size, m.bytes, p.plain.n);
            FullManifest(id, tape, f, m)
            == Full(f.samples + [sample], Actual(tape, p), f.faults + FullFaults(id, tape, f.previous, p), false)
  {
  }

  lemma CountedAgrees(t: Totals, samples: seq<Sample>, tape: Tape, m: Manifest, p: Payload, last: string)
    requires Usable(tape, p) && Measured(p) && Agrees(t, samples)
    ensures Agrees(Counted(t, tape, m, p, last),
                   samples + [Sample(p.bucket.n, p.received.n, tape.data[p.dataName].size, m.bytes, p.plain.n)])
  {
    var s := Sample(p.bucket.n, p.received.n, tape.data[p.dataName].size, m.bytes, p.plain.n);
    var all, n := samples + [s], Counted(t, tape, m, p, last);
    assert all[..|all| - 1] == samples && all[|all| - 1] == s;
    if p.plain.n <= t.maxPlain && samples != [] {
      var i :| 0 <= i < |samples| && samples[i].plain == t.maxPlain;
      assert all[i].plain == n.maxPlain;
    }
    if samples != [] {
      var i :| 0 <= i < |samples| && samples[i].received == t.latest.value;
      assert all[i].received == t.latest.value;
    }
    assert all[|samples|].received == p.received.n && all[|samples|].plain == p.plain.n;
  }

  lemma {:induction false} FullNeverAborts(id: Identity, tape: Tape, ms: seq<Manifest>)
    requires forall i :: 0 <= i < |ms| ==> Sound(id, tape, ms[i])
    ensures !FullScan(id, tape, ms).aborted && |FullScan(id, tape, ms).samples| == |ms|
    ensures ms != [] ==> FullScan(id, tape, ms).previous == ActualOf(tape, ms[|ms| - 1])
  {
    if ms != [] {
      FullNeverAborts(id, tape, ms[..|ms| - 1]);
      FullReadsSound(id, tape, FullScan(id, tape, ms[..|ms| - 1]), ms[|ms| - 1]);
    }
  }

  /** What one fault-free FAST step shows about the manifest it read. */
  lemma CleanStep(id: Identity, tape: Tape, metadataOnly: bool, f: Fast, m: Manifest)
    requires FastManifest(id, tape, metadataOnly, f, m).faults == []
    ensures f.faults == [] && Sound(id, tape, m)
    ensures NamesPrevious(m, f.totals.last)
    ensures !metadataOnly ==> Genuine(tape, m)
    ensures FastManifest(id, tape, metadataOnly, f, m).totals
         == Counted(f.totals, tape, m, m.content.payload, m.content.payload.digest.text)
  {
  }

  lemma StandsExtends(id: Identity, tape: Tape, t: Totals, ms: seq<Manifest>, m: Manifest)
    requires Stands(id, tape, t, ms) && Sound(id, tape, m) && NamesPrevious(m, t.last)
    ensures Stands(id, tape, Counted(t, tape, m, m.content.payload, m.content.payload.digest.text), ms + [m])
  {
    var all := ms + [m];
    ChainedExtends(id, tape, ms, m);
    assert all[..|all| - 1] == ms && all[|all| - 1] == m;
    FullNeverAborts(id, tape, ms);
    FullReadsSound(id, tape, FullScan(id, tape, ms), m);
    CountedAgrees(t, FullScan(id, tape, ms).samples, tape, m, m.content.payload, m.content.payload.digest.text);
  }

  /** Reading the new manifests after a covered prefix covers the longer prefix. */
  lemma {:induction false} FastExtends(id: Identity, tape: Tape, metadataOnly: bool, t: Totals,
                                       done: seq<Manifest>, added: seq<Manifest>)
    requires Stands(id, tape, t, done)
    requires FastManifests(id, tape, metadataOnly, Fast(t, []), added).faults == []
    ensures Stands(id, tape, FastManifests(id, tape, metadataOnly, Fast(t, []), added).totals, done + added)
    ensures !metadataOnly ==> forall i :: 0 <= i < |added| ==> Genuine(tape, added[i])
    decreases |added|
  {
    hide FastManifest, Sound, Counted, Chained, Agrees, FullScan;
    if added == [] {
      assert done + added == done;
    } else {
      var front, m := added[..|added| - 1], added[|added| - 1];
      var f := FastManifests(id, tape, metadataOnly, Fast(t, []), front);
      CleanStep(id, tape, metadataOnly, f, m);
      FastExtends(id, tape, metadataOnly, t, done, front);
      StandsExtends(id, tape, f.totals, done + front, m);
      assert done + added == done + front + [m];
      assert forall i :: 0 <= i < |front| ==> added[i] == front[i];
    }
  }

  lemma NothingNew(cursor: Cursor, ms: seq<Manifest>)
    requires forall i :: 0 <= i < |ms| ==> !IsNew(cursor, ms[i])
    ensures NewManifests(cursor, ms) == []
  {
  }

  lemma {:induction false} NewAfterCursor(cursor: Cursor, ms: seq<Manifest>, n: nat)
    requires n <= |ms| && Sorted(ms)
    requires cursor.name == LastName(ms[..n])
    ensures NewManifests(cursor, ms) == ms[n..]
  {
    if |ms| == n {
      NothingNew(cursor, ms);
    } else {
      var front := ms[..|ms| - 1];
      assert front[..n] == ms[..n];
      NewAfterCursor(cursor, front, n);
      assert n > 0 ==> ms[n - 1].name < ms[|ms| - 1].name;
      SuffixSnoc(ms, n);
      hide Sorted;
    }
  }

  lemma SuffixSnoc(ms: seq<Manifest>, n: nat)
    requires n < |ms|
    ensures ms[n..] == ms[..|ms| - 1][n..] + [ms[|ms| - 1]]
  {
  }

  /** Growth does not disturb what was already established. */
  lemma {:induction false} GrowthKeepsScan(id: Identity, before: Tape, after: Tape, ms: seq<Manifest>)
    requires Grows(before, after) && forall i :: 0 <= i < |ms| ==> Sound(id, before, ms[i])
    ensures forall i :: 0 <= i < |ms| ==> Sound(id, after, ms[i])
    ensures FullScan(id, after, ms) == FullScan(id, before, ms)
  {
    if ms != [] {
      GrowthKeepsScan(id, before, after, ms[..|ms| - 1]);
      assert forall i :: 0 <= i < |ms| - 1 ==> ms[i] == ms[..|ms| - 1][i];
      assert Sound(id, after, ms[|ms| - 1]);
    }
  }

  lemma GrowthKeepsStanding(id: Identity, before: Tape, after: Tape, t: Totals, ms: seq<Manifest>)
    requires Stands(id, before, t, ms) && Grows(before, after)
    ensures Stands(id, after, t, ms)
  {
    GrowthKeepsScan(id, before, after, ms);
  }

  lemma CleanMarketParts(id: Identity, tape: Tape, cursor: Cursor)
    requires FastMarket(id, tape, cursor).1 == []
    ensures var added := NewManifests(cursor, tape.manifests);
            var f := FastManifests(id, tape, cursor.name.None? && cursor.count == 0, Fast(cursor.totals, []), added);
            var next := FastMarket(id, tape, cursor).0;
            && f.faults == []
            && next.name == (if added == [] then cursor.name else LastName(added))
            && next.count == cursor.count + |added|
            && next.totals == f.totals
  {
  }

  lemma LastNameConcat(done: seq<Manifest>, added: seq<Manifest>)
    ensures LastName(done + added) == if added == [] then LastName(done) else LastName(added)
  {
    assert added == [] ==> done + added == done;
  }

  /** The manifests a grown directory has gained are the ones a FAST run reads. */
  lemma GrownPart(id: Identity, before: Tape, after: Tape, cursor: Cursor)
    requires Covers(id, before, cursor, before.manifests) && Grows(before, after)
    ensures cursor.count == |before.manifests| <= |after.manifests|
    ensures before.manifests + after.manifests[cursor.count..] == after.manifests
    ensures NewManifests(cursor, after.manifests) == after.manifests[cursor.count..]
    ensures Stands(id, after, cursor.totals, before.manifests)
    ensures cursor.name == LastName(before.manifests)
  {
    hide Sound, Chained, Agrees, FullScan, NewManifests;
    GrowthKeepsStanding(id, before, after, cursor.totals, before.manifests);
    hide Stands;
    assert after.manifests[..|before.manifests|] == before.manifests;
    NewAfterCursor(cursor, after.manifests, |before.manifests|);
  }

  /** Reading the gained manifests `added` after the covered ones `done` covers both. */
  lemma CleanPartCovers(id: Identity, tape: Tape, cursor: Cursor, done: seq<Manifest>, added: seq<Manifest>)
    requires cursor.count == |done| && cursor.name == LastName(done) && Stands(id, tape, cursor.totals, done)
    requires NewManifests(cursor, tape.manifests) == added && FastMarket(id, tape, cursor).1 == []
    ensures Covers(id, tape, FastMarket(id, tape, cursor).0, done + added)
    ensures cursor.count > 0 ==> AllGenuine(tape, added)
  {
    hide Stands, FastManifests, FastMarket, NewManifests, Genuine, LastName;
    CleanMarketParts(id, tape, cursor);
    FastExtends(id, tape, cursor.name.None? && cursor.count == 0, cursor.totals, done, added);
    LastNameConcat(done, added);
  }

  lemma SuffixGenuine(tape: Tape, ms: seq<Manifest>, k: nat)
    requires k <= |ms| && AllGenuine(tape, ms[k..])
    ensures forall i :: k <= i < |ms| ==> Genuine(tape, ms[i])
  {
    hide Genuine;
    forall i | k <= i < |ms|
      ensures Genuine(tape, ms[i])
    {
      assert ms[k..][i - k] == ms[i];
    }
  }

  /** One error-free market pass over a grown directory moves the cursor to its end. */
  lemma CleanMarketCovers(id: Identity, before: Tape, after: Tape, cursor: Cursor)
    requires Covers(id, before, cursor, before.manifests) && Grows(before, after)
    requires FastMarket(id, after, cursor).1 == []
    ensures Covers(id, after, FastMarket(id, after, cursor).0, after.manifests)
    ensures cursor.count > 0 ==> forall i :: cursor.count <= i < |after.manifests| ==> Genuine(after, after.manifests[i])
  {
    GrownPart(id, before, after, cursor);
    hide Covers, Grows, Stands, FastMarket, NewManifests, LastName, AllGenuine, Genuine;
    CleanPartCovers(id, after, cursor, before.manifests, after.manifests[cursor.count..]);
    if cursor.count > 0 {
      SuffixGenuine(after, after.manifests, cursor.count);
    }
  }

  ghost predicate CoversWorld(ids: Identities, w: World, st: State) {
    && Covers(ids.futures, w.futures, st.futures, w.futures.manifests)
    && Covers(ids.spot, w.spot, st.spot, w.spot.manifests)
  }

  lemma CleanRunCovers(ids: Identities, was: World, w: World, st: State)
    requires CoversWorld(ids, was, st) && Grows(was.futures, w.futures) && Grows(was.spot, w.spot)
    requires FastRun(ids, w, st).1 == []
    ensures CoversWorld(ids, w, FastRun(ids, w, st).0)
  {
    var e1, e2 := FastMarket(ids.futures, w.futures, st.futures).1, FastMarket(ids.spot, w.spot, st.spot).1;
    assert e1 + e2 == [] && e1 == [] && e2 == [];
    CleanMarketCovers(ids.futures, was.futures, w.futures, st.futures);
    CleanMarketCovers(ids.spot, was.spot, w.spot, st.spot);
  }

  /** The last error-free run among the first n, if any. */
  function LastClean(ids: Identities, worlds: seq<World>): Option<nat> {
    if worlds == [] then None
    else if CleanRun(ids, worlds, |worlds| - 1) then Some(|worlds| - 1)
    else LastClean(ids, worlds[..|worlds| - 1])
  }

  ghost predicate GrowingHistory(worlds: seq<World>) {
    forall i, j :: 0 <= i <= j < |worlds| ==>
      Grows(worlds[i].futures, worlds[j].futures) && Grows(worlds[i].spot, worlds[j].spot)
  }

  /** The world whose directories the state file describes: the last error-free one, else an empty one. */
  function Described(ids: Identities, worlds: seq<World>): World {
    match LastClean(ids, worlds)
    case Some(k) => if k < |worlds| then worlds[k] else World(Tape([], map[], []), Tape([], map[], []))
    case None => World(Tape([], map[], []), Tape([], map[], []))
  }

  lemma {:induction false} DescribedGrows(ids: Identities, worlds: seq<World>, w: World)
    requires GrowingHistory(worlds + [w])
    ensures Grows(Described(ids, worlds).futures, w.futures) && Grows(Described(ids, worlds).spot, w.spot)
  {
    var all := worlds + [w];
    assert all[|worlds|] == w;
    assert Grows(all[|worlds|].futures, all[|worlds|].futures) && Grows(all[|worlds|].spot, all[|worlds|].spot);
    if LastClean(ids, worlds).Some? && LastClean(ids, worlds).value < |worlds| {
      var k := LastClean(ids, worlds).value;
      assert all[k] == worlds[k];
      assert Grows(all[k].futures, all[|worlds|].futures) && Grows(all[k].spot, all[|worlds|].spot);
    }
  }

  lemma BlankCovers(ids: Identities)
    ensures CoversWorld(ids, World(Tape([], map[], []), Tape([], map[], [])), BLANK_STATE)
  {
  }

  lemma FaultyRunChangesNothing(ids: Identities, w: World, st: State)
    requires FastRun(ids, w, st).1 != []
    ensures FastRun(ids, w, st).0 == st
  {
  }

  /**
   Main result. After every history of FAST runs, error-free or not, over directories that only grow,
   the state file covers exactly the directories of the last error-free run: its count, totals,
   maximum, latest time and last hash are those of a full pass over them, and the predecessor chain
   holds over all manifests, across the boundaries between runs.
   */
  lemma {:induction false} FastStateEqualsFullScan(ids: Identities, worlds: seq<World>)
    requires GrowingHistory(worlds)
    ensures CoversWorld(ids, Described(ids, worlds), FastRuns(ids, worlds))
  {
    hide Covers, FastRun, Grows;
    if worlds != [] {
      var k := |worlds| - 1;
      var front, w := worlds[..k], worlds[k];
      assert front + [w] == worlds;
      FastStateEqualsFullScan(ids, front);
      DescribedGrows(ids, front, w);
      var st, was := FastRuns(ids, front), Described(ids, front);
      if CleanRun(ids, worlds, k) {
        CleanRunCovers(ids, was, w, st);
        assert Described(ids, worlds) == w;
      } else {
        LastCleanInRange(ids, front);
        FaultyRunChangesNothing(ids, w, st);
        assert Described(ids, worlds) == was;
      }
    } else {
      BlankCovers(ids);
    }
  }

  lemma {:induction false} LastCleanInRange(ids: Identities, worlds: seq<World>)
    ensures LastClean(ids, worlds).Some? ==> LastClean(ids, worlds).value < |worlds|
    ensures LastClean(ids, worlds).Some? ==> CleanRun(ids, worlds, LastClean(ids, worlds).value)
  {
    hide FastRun, FastRuns;
    if worlds != [] && !CleanRun(ids, worlds, |worlds| - 1) {
      LastCleanInRange(ids, worlds[..|worlds| - 1]);
      var r := LastClean(ids, worlds);
      assert r.Some? ==> worlds[..|worlds| - 1][..r.value] == worlds[..r.value];
    }
  }

  /** On a sound manifest the full scan can only object to its data or to its predecessor. */
  lemma SoundFaults(id: Identity, tape: Tape, previous: Option<string>, m: Manifest)
    requires Sound(id, tape, m)
    ensures FullFaults(id, tape, previous, m.content.payload) == [] <==> Genuine(tape, m) && NamesPrevious(m, previous)
    ensures Genuine(tape, m) ==> Actual(tape, m.content.payload) == Declared(m)
  {
  }

  /** One more sound, linked manifest: the scan stays clean exactly when its data is genuine. */
  lemma FullCleanStep(id: Identity, tape: Tape, front: seq<Manifest>, m: Manifest)
    requires !FullScan(id, tape, front).aborted && Sound(id, tape, m) && NamesPrevious(m, LastDeclared(front))
    requires FullScan(id, tape, front).faults == [] ==> FullScan(id, tape, front).previous == LastDeclared(front)
    ensures var f, g := FullScan(id, tape, front), FullScan(id, tape, front + [m]);
            && (g.faults == [] <==> f.faults == [] && Genuine(tape, m))
            && (g.faults == [] ==> g.previous == Declared(m))
  {
    var f, all := FullScan(id, tape, front), front + [m];
    assert all[..|all| - 1] == front;
    assert FullScan(id, tape, all) == FullManifest(id, tape, f, m);
    FullReadsSound(id, tape, f, m);
    hide FullScan, FullManifest, Sound, FullFaults, Genuine;
    SoundFaults(id, tape, f.previous, m);
  }

  ghost predicate AllGenuine(tape: Tape, ms: seq<Manifest>) {
    forall i :: 0 <= i < |ms| ==> Genuine(tape, ms[i])
  }

  lemma AllGenuineSnoc(tape: Tape, front: seq<Manifest>, m: Manifest)
    ensures AllGenuine(tape, front + [m]) <==> AllGenuine(tape, front) && Genuine(tape, m)
  {
    hide Genuine;
    var all := front + [m];
    assert all[|front|] == m && forall i :: 0 <= i < |front| ==> all[i] == front[i];
  }

  lemma {:induction false} FullCleanIffGenuinePrefix(id: Identity, tape: Tape, ms: seq<Manifest>)
    requires Chained(id, tape, ms)
    ensures FullScan(id, tape, ms).faults == [] <==> AllGenuine(tape, ms)
    ensures FullScan(id, tape, ms).faults == [] ==> FullScan(id, tape, ms).previous == LastDeclared(ms)
  {
    if ms == [] {
      EmptyScan(id, tape);
    } else {
      hide FullScan, Sound, AllGenuine, Chained;
      var front, m := ms[..|ms| - 1], ms[|ms| - 1];
      assert ms == front + [m];
      ChainedLast(id, tape, ms);
      FullCleanIffGenuinePrefix(id, tape, front);
      FullNeverAborts(id, tape, front);
      FullCleanStep(id, tape, front, m);
      AllGenuineSnoc(tape, front, m);
    }
  }

  lemma EmptyScan(id: Identity, tape: Tape)
    ensures FullScan(id, tape, []) == Full([], None, [], false)
  {
  }

  lemma ChainedLast(id: Identity, tape: Tape, ms: seq<Manifest>)
    requires Chained(id, tape, ms) && ms != []
    ensures var front, m := ms[..|ms| - 1], ms[|ms| - 1];
            && Chained(id, tape, front) && (forall i :: 0 <= i < |front| ==> Sound(id, tape, front[i]))
            && Sound(id, tape, m) && NamesPrevious(m, LastDeclared(front))
  {
    hide Sound;
    ChainedPrefix(id, tape, ms, |ms| - 1);
  }

  /**
   The bootstrap pass trusts declared hashes, so the full scan of a covered directory is error-free
   exactly when every stored segment hashes to its declared digest; then the last hash agrees too.
   */
  lemma FullScanCleanIffGenuine(id: Identity, tape: Tape, cursor: Cursor)
    requires Covers(id, tape, cursor, tape.manifests)
    ensures var f := FullScan(id, tape, tape.manifests);
            && !f.aborted
            && |f.samples| == cursor.count
            && Agrees(cursor.totals, f.samples)
            && (f.faults == [] <==> forall i :: 0 <= i < |tape.manifests| ==> Genuine(tape, tape.manifests[i]))
            && (f.faults == [] ==> f.previous == cursor.totals.last)
  {
    FullNeverAborts(id, tape, tape.manifests);
    FullCleanIffGenuinePrefix(id, tape, tape.manifests);
  }

  datatype Market = Futures | Spot

  function TapeOf(w: World, m: Market): Tape { if m.Futures? then w.futures else w.spot }
  function CursorOf(st: State, m: Market): Cursor { if m.Futures? then st.futures else st.spot }
  function IdOf(ids: Identities, m: Market): Identity { if m.Futures? then ids.futures else ids.spot }

  /** How many manifests the bootstrap pass took on trust: the first count above zero that was persisted. */
  function BootCount(ids: Identities, worlds: seq<World>, m: Market): nat {
    if worlds == [] then 0
    else
      var b := BootCount(ids, worlds[..|worlds| - 1], m);
      if b > 0 then b else CursorOf(FastRuns(ids, worlds), m).count
  }

  lemma RunNeverForgets(ids: Identities, w: World, st: State, m: Market)
    ensures CursorOf(FastRun(ids, w, st).0, m).count >= CursorOf(st, m).count
  {
  }

  lemma {:induction false} BootWithinCount(ids: Identities, worlds: seq<World>, m: Market)
    ensures BootCount(ids, worlds, m) <= CursorOf(FastRuns(ids, worlds), m).count
    ensures BootCount(ids, worlds, m) == 0 ==> CursorOf(FastRuns(ids, worlds), m).count == 0
  {
    hide FastRun;
    if worlds != [] {
      var k := |worlds| - 1;
      BootWithinCount(ids, worlds[..k], m);
      RunNeverForgets(ids, worlds[k], FastRuns(ids, worlds[..k]), m);
    }
  }

  lemma CleanRunHashes(ids: Identities, was: World, w: World, st: State, m: Market, b: nat)
    requires CoversWorld(ids, was, st) && Grows(was.futures, w.futures) && Grows(was.spot, w.spot)
    requires FastRun(ids, w, st).1 == [] && 0 < b <= CursorOf(st, m).count
    requires forall i :: b <= i < |TapeOf(was, m).manifests| ==> Genuine(TapeOf(was, m), TapeOf(was, m).manifests[i])
    ensures forall i :: b <= i < |TapeOf(w, m).manifests| ==> Genuine(TapeOf(w, m), TapeOf(w, m).manifests[i])
  {
    var e1, e2 := FastMarket(ids.futures, w.futures, st.futures).1, FastMarket(ids.spot, w.spot, st.spot).1;
    assert e1 + e2 == [] && e1 == [] && e2 == [];
    hide FastMarket, FastRun, Agrees, FullScan;
    CleanMarketCovers(IdOf(ids, m), TapeOf(was, m), TapeOf(w, m), CursorOf(st, m));
    var old', new' := TapeOf(was, m), TapeOf(w, m);
    forall i | b <= i < |old'.manifests|
      ensures Genuine(new', new'.manifests[i])
    {
      assert Sound(IdOf(ids, m), old', old'.manifests[i]);
      assert new'.manifests[i] == old'.manifests[i];
    }
  }

  /** How one more run changes what the state file describes. */
  lemma HistoryStep(ids: Identities, front: seq<World>, w: World, m: Market)
    ensures var st, worlds := FastRuns(ids, front), front + [w];
            && FastRuns(ids, worlds) == FastRun(ids, w, st).0
            && Described(ids, worlds) == (if FastRun(ids, w, st).1 == [] then w else Described(ids, front))
            && BootCount(ids, worlds, m) == (if BootCount(ids, front, m) > 0 then BootCount(ids, front, m)
                                             else CursorOf(FastRun(ids, w, st).0, m).count)
  {
    hide FastRun;
    var worlds := front + [w];
    assert worlds[..|worlds| - 1] == front && worlds[|worlds| - 1] == w;
    LastCleanInRange(ids, front);
  }

  /** Everything read after the bootstrap pass was hashed. */
  lemma {:induction false} LaterSegmentsGenuine(ids: Identities, worlds: seq<World>, m: Market)
    requires GrowingHistory(worlds)
    ensures var tape := TapeOf(Described(ids, worlds), m);
            forall i :: BootCount(ids, worlds, m) <= i < |tape.manifests| ==> Genuine(tape, tape.manifests[i])
  {
    if worlds != [] {
      hide CoversWorld, FastRun, FastRuns, Described, Grows, Genuine, BootCount;
      var k := |worlds| - 1;
      var front, w := worlds[..k], worlds[k];
      assert front + [w] == worlds;
      var st := FastRuns(ids, front);
      LaterSegmentsGenuine(ids, front, m);
      HistoryStep(ids, front, w, m);
      if FastRun(ids, w, st).1 == [] {
        FastStateEqualsFullScan(ids, front);
        DescribedGrows(ids, front, w);
        BootWithinCount(ids, front, m);
        if BootCount(ids, front, m) > 0 {
          CleanRunHashes(ids, Described(ids, front), w, st, m, BootCount(ids, front, m));
        } else {
          CleanRunCovers(ids, Described(ids, front), w, st);
          CoversCount(ids, w, FastRuns(ids, worlds), m);
        }
      } else {
        FaultyRunChangesNothing(ids, w, st);
        BootWithinCount(ids, front, m);
        CoversDescribed(ids, front, m);
      }
    } else {
      assert TapeOf(Described(ids, worlds), m).manifests == [];
    }
  }

  lemma CoversDescribed(ids: Identities, worlds: seq<World>, m: Market)
    requires GrowingHistory(worlds)
    ensures CursorOf(FastRuns(ids, worlds), m).count == |TapeOf(Described(ids, worlds), m).manifests|
  {
    FastStateEqualsFullScan(ids, worlds);
  }

  lemma CoversCount(ids: Identities, w: World, st: State, m: Market)
    requires CoversWorld(ids, w, st)
    ensures Covers(IdOf(ids, m), TapeOf(w, m), CursorOf(st, m), TapeOf(w, m).manifests)
    ensures CursorOf(st, m).count == |TapeOf(w, m).manifests|
  {
  }

  /**
   The exact condition for the two scans to agree on everything. After any history the full scan's
   count, byte totals, maximum and latest time always equal the persisted ones; it is moreover
   error-free, with the same last hash, exactly when the segments of the bootstrap pass, which alone
   were taken on trust, hash to what their manifests declare.
   */
  lemma FullScanAgreesIffBootstrapGenuine(ids: Identities, worlds: seq<World>, m: Market)
    requires GrowingHistory(worlds)
    ensures var tape, cursor := TapeOf(Described(ids, worlds), m), CursorOf(FastRuns(ids, worlds), m);
            var f := FullScan(IdOf(ids, m), tape, tape.manifests);
            && !f.aborted && |f.samples| == cursor.count && Agrees(cursor.totals, f.samples)
            && (f.faults == [] <==>
                forall i :: 0 <= i < |tape.manifests| && i < BootCount(ids, worlds, m) ==> Genuine(tape, tape.manifests[i]))
            && (f.faults == [] ==> f.previous == cursor.totals.last)
  {
    hide FastRuns, LastClean, FullScan, Agrees, Genuine, BootCount, Chained;
    FastStateEqualsFullScan(ids, worlds);
    CoversCount(ids, Described(ids, worlds), FastRuns(ids, worlds), m);
    FullScanCleanIffGenuine(IdOf(ids, m), TapeOf(Described(ids, worlds), m), CursorOf(FastRuns(ids, worlds), m));
    LaterSegmentsGenuine(ids, worlds, m);
  }

  // ---------------------------------------------------------------- exactly when a run is error-free

  /** One manifest is read without a fault exactly when it is sound, linked and, once hashed, genuine. */
  lemma ManifestCleanIff(id: Identity, tape: Tape, metadataOnly: bool, f: Fast, m: Manifest)
    ensures FastManifest(id, tape, metadataOnly, f, m).faults == [] <==>
            f.faults == [] && Sound(id, tape, m) && NamesPrevious(m, f.totals.last) && (metadataOnly || Genuine(tape, m))
    ensures FastManifest(id, tape, metadataOnly, f, m).faults == [] ==>
            FastManifest(id, tape, metadataOnly, f, m).totals.last == Declared(m)
  {
  }

  /** What a FAST run asks of the i-th new manifest when the last segment before them has digest `last`. */
  ghost predicate ReadsWell(id: Identity, tape: Tape, metadataOnly: bool, last: Option<string>, added: seq<Manifest>, i: nat)
    requires i < |added|
  {
    && Sound(id, tape, added[i])
    && NamesPrevious(added[i], if i == 0 then last else Declared(added[i - 1]))
    && (metadataOnly || Genuine(tape, added[i]))
  }

  ghost predicate AllReadWell(id: Identity, tape: Tape, metadataOnly: bool, last: Option<string>, added: seq<Manifest>) {
    forall i :: 0 <= i < |added| ==> ReadsWell(id, tape, metadataOnly, last, added, i)
  }

  lemma AllReadWellSnoc(id: Identity, tape: Tape, metadataOnly: bool, last: Option<string>, front: seq<Manifest>, m: Manifest)
    ensures AllReadWell(id, tape, metadataOnly, last, front + [m]) <==>
            AllReadWell(id, tape, metadataOnly, last, front) && ReadsWell(id, tape, metadataOnly, last, front + [m], |front|)
  {
    var all := front + [m];
    forall i | 0 <= i < |front|
      ensures ReadsWell(id, tape, metadataOnly, last, all, i) <==> ReadsWell(id, tape, metadataOnly, last, front, i)
    {
      assert all[i] == front[i] && (i > 0 ==> all[i - 1] == front[i - 1]);
    }
    hide ReadsWell;
  }

  lemma {:induction false} ReadCleanIff(id: Identity, tape: Tape, metadataOnly: bool, t: Totals, added: seq<Manifest>)
    ensures var f := FastManifests(id, tape, metadataOnly, Fast(t, []), added);
            && (f.faults == [] <==> AllReadWell(id, tape, metadataOnly, t.last, added))
            && (f.faults == [] ==> f.totals.last == if added == [] then t.last else Declared(added[|added| - 1]))
  {
    if added != [] {
      hide FastManifest, Sound, Genuine, NamesPrevious, Declared, AllReadWell;
      var front, m := added[..|added| - 1], added[|added| - 1];
      assert added == front + [m];
      ReadCleanIff(id, tape, metadataOnly, t, front);
      ManifestCleanIff(id, tape, metadataOnly, FastManifests(id, tape, metadataOnly, Fast(t, []), front), m);
      AllReadWellSnoc(id, tape, metadataOnly, t.last, front, m);
    }
  }

  /** Every partial has a bucket in its name and could be measured. */
  ghost predicate PartialsInOrder(ps: seq<Partial>) {
    forall i :: 0 <= i < |ps| ==> ps[i].bucket.Some? && ps[i].size.Some?
  }

  lemma {:induction false} PartialsCleanIff(ps: seq<Partial>)
    ensures PartialFaults(ps) == [] <==> PartialsInOrder(ps)
  {
    if ps != [] {
      PartialsCleanIff(ps[..|ps| - 1]);
      assert forall i :: 0 <= i < |ps| - 1 ==> ps[i] == ps[..|ps| - 1][i];
    }
  }

  /**
   One market, for every cursor and every directory: the pass reports nothing if and only if as many
   manifests as counted are named up to the cursor, every new manifest carries its fields, its segment's
   size, its predecessor's digest and, unless this is the bootstrap, its segment's real hash, and every
   partial is in order.
   */
  lemma MarketCleanIff(id: Identity, tape: Tape, cursor: Cursor)
    ensures var bootstrap := cursor.name.None? && cursor.count == 0;
            FastMarket(id, tape, cursor).1 == [] <==>
            && (cursor.name.Some? ==> NamedUpTo(tape.manifests, cursor.name.value) == cursor.count)
            && AllReadWell(id, tape, bootstrap, cursor.totals.last, NewManifests(cursor, tape.manifests))
            && PartialsInOrder(tape.partials)
  {
    var added, bootstrap := NewManifests(cursor, tape.manifests), cursor.name.None? && cursor.count == 0;
    if cursor.name.Some? {
      CountsObjectIff(cursor, tape.manifests);
    }
    ReadCleanIff(id, tape, bootstrap, cursor.totals, added);
    PartialsCleanIff(tape.partials);
    hide NewManifests, FastManifests, PartialFaults, PartialsInOrder, AllReadWell, NamedUpTo;
    var counts := CountFaults(cursor, |tape.manifests|, |added|);
    var f := FastManifests(id, tape, bootstrap, Fast(cursor.totals, []), added);
    assert FastMarket(id, tape, cursor).1 == counts + f.faults + PartialFaults(tape.partials);
    hide CountFaults;
    SumIsEmpty(counts, f.faults, PartialFaults(tape.partials));
  }

  lemma SumIsEmpty(a: seq<Fault>, b: seq<Fault>, c: seq<Fault>)
    ensures a + b + c == [] <==> a == [] && b == [] && c == []
  {
    assert |a + b + c| == |a| + |b| + |c|;
  }

  /** Manifest i is sound, names its predecessor's declared digest and, if it is to be hashed, is genuine. */
  ghost predicate InOrderAt(id: Identity, tape: Tape, hashed: bool, i: nat)
    requires i < |tape.manifests|
  {
    && Sound(id, tape, tape.manifests[i])
    && NamesPrevious(tape.manifests[i], LastDeclared(tape.manifests[..i]))
    && (hashed ==> Genuine(tape, tape.manifests[i]))
  }

  ghost predicate InOrderFrom(id: Identity, tape: Tape, hashed: bool, n: nat) {
    forall i :: n <= i < |tape.manifests| ==> InOrderAt(id, tape, hashed, i)
  }

  lemma ReadWellAt(id: Identity, tape: Tape, hashed: bool, n: nat, j: nat)
    requires n + j < |tape.manifests|
    ensures ReadsWell(id, tape, !hashed, LastDeclared(tape.manifests[..n]), tape.manifests[n..], j) <==> InOrderAt(id, tape, hashed, n + j)
  {
    var ms := tape.manifests;
    hide Sound, Genuine, NamesPrevious;
    assert ms[n..][j] == ms[n + j];
    if j > 0 {
      assert ms[n..][j - 1] == ms[n + j - 1];
      assert ms[..n + j][|ms[..n + j]| - 1] == ms[n + j - 1];
    }
  }

  lemma ReadWellIsInOrder(id: Identity, tape: Tape, hashed: bool, n: nat)
    requires n <= |tape.manifests|
    ensures AllReadWell(id, tape, !hashed, LastDeclared(tape.manifests[..n]), tape.manifests[n..]) <==> InOrderFrom(id, tape, hashed, n)
  {
    hide ReadsWell, InOrderAt, LastDeclared;
    var last, added := LastDeclared(tape.manifests[..n]), tape.manifests[n..];
    if AllReadWell(id, tape, !hashed, last, added) {
      forall i | n <= i < |tape.manifests|
        ensures InOrderAt(id, tape, hashed, i)
      {
        ReadWellAt(id, tape, hashed, n, i - n);
      }
    } else {
      var j :| 0 <= j < |added| && !ReadsWell(id, tape, !hashed, last, added, j);
      ReadWellAt(id, tape, hashed, n, j);
      assert !InOrderAt(id, tape, hashed, n + j);
    }
  }

  /**
   Over a covering cursor and a directory that only grew, the pass is error-free if and only if every new
   manifest is in order, hashed unless nothing was counted before, and every partial is in order.
   */
  lemma GrownMarketCleanIff(id: Identity, before: Tape, after: Tape, cursor: Cursor)
    requires Covers(id, before, cursor, before.manifests) && Grows(before, after)
    ensures FastMarket(id, after, cursor).1 == [] <==>
            InOrderFrom(id, after, cursor.count > 0, cursor.count) && PartialsInOrder(after.partials)
  {
    GrownPart(id, before, after, cursor);
    MarketCleanIff(id, after, cursor);
    CoveredLast(id, before, after, cursor);
    hide FastMarket, Grows, Covers, NewManifests, AllReadWell, InOrderFrom, PartialsInOrder, Stands;
    if cursor.name.Some? {
      OldAndNew(cursor, after.manifests);
    }
    ReadWellIsInOrder(id, after, cursor.count > 0, cursor.count);
  }

  lemma CoveredLast(id: Identity, before: Tape, after: Tape, cursor: Cursor)
    requires Covers(id, before, cursor, before.manifests) && Grows(before, after)
    ensures cursor.count <= |after.manifests| && cursor.totals.last == LastDeclared(after.manifests[..cursor.count])
    ensures cursor.name.None? <==> cursor.count == 0
  {
    hide Chained, Agrees, FullScan;
    assert after.manifests[..|before.manifests|] == before.manifests;
  }

  /** Both markets of a world that an earlier one grew into. */
  lemma GrownRunCleanIff(ids: Identities, was: World, w: World, st: State)
    requires CoversWorld(ids, was, st) && Grows(was.futures, w.futures) && Grows(was.spot, w.spot)
    ensures FastRun(ids, w, st).1 == [] <==>
            && InOrderFrom(ids.futures, w.futures, st.futures.count > 0, st.futures.count) && PartialsInOrder(w.futures.partials)
            && InOrderFrom(ids.spot, w.spot, st.spot.count > 0, st.spot.count) && PartialsInOrder(w.spot.partials)
  {
    GrownMarketCleanIff(ids.futures, was.futures, w.futures, st.futures);
    GrownMarketCleanIff(ids.spot, was.spot, w.spot, st.spot);
    hide FastMarket, CoversWorld, Grows, InOrderFrom, PartialsInOrder;
    var e1, e2 := FastMarket(ids.futures, w.futures, st.futures).1, FastMarket(ids.spot, w.spot, st.spot).1;
    assert e1 + e2 == [] <==> e1 == [] && e2 == [];
  }

  /** A tape with nothing wrong with it. */
  ghost predicate GoodTape(id: Identity, tape: Tape) {
    InOrderFrom(id, tape, true, 0) && PartialsInOrder(tape.partials)
  }

  ghost predicate GoodWorld(ids: Identities, w: World) {
    GoodTape(ids.futures, w.futures) && GoodTape(ids.spot, w.spot)
  }

  lemma GoodTapeFrom(id: Identity, tape: Tape, hashed: bool, n: nat)
    requires GoodTape(id, tape)
    ensures InOrderFrom(id, tape, hashed, n) && PartialsInOrder(tape.partials)
  {
    hide Sound, Genuine, NamesPrevious;
    forall i | n <= i < |tape.manifests|
      ensures InOrderAt(id, tape, hashed, i)
    {
      assert InOrderAt(id, tape, true, i);
    }
  }

  /**
   The scan never gets stuck on a good tape: over every growing history of good directories every run is
   error-free and the state file covers the directories of the latest run.
   */
  lemma GoodHistoryKeepsUp(ids: Identities, worlds: seq<World>, k: nat)
    requires GrowingHistory(worlds) && k < |worlds| && GoodWorld(ids, worlds[k])
    ensures CleanRun(ids, worlds, k)
    ensures CoversWorld(ids, worlds[k], FastRuns(ids, worlds[..k + 1]))
  {
    var front, w, upto := worlds[..k], worlds[k], worlds[..k + 1];
    assert upto == front + [w] && upto[..k] == front;
    GrowingPrefix(worlds, k + 1);
    hide CoversWorld, FastRun, FastRuns, Grows, GoodWorld, GrowingHistory;
    GoodRunIsClean(ids, front, w);
    FastStateEqualsFullScan(ids, upto);
    assert CleanRun(ids, upto, k) && Described(ids, upto) == w;
  }

  lemma GrowingPrefix(worlds: seq<World>, n: nat)
    requires GrowingHistory(worlds) && n <= |worlds|
    ensures GrowingHistory(worlds[..n])
  {
    hide Grows;
  }

  lemma GoodRunIsClean(ids: Identities, front: seq<World>, w: World)
    requires GrowingHistory(front + [w]) && GoodWorld(ids, w)
    ensures CleanRun(ids, front + [w], |front|)
  {
    assert (front + [w])[..|front|] == front;
    assert forall i :: 0 <= i < |front| ==> (front + [w])[i] == front[i];
    hide CoversWorld, FastRun, FastRuns, Grows, InOrderFrom, PartialsInOrder;
    FastStateEqualsFullScan(ids, front);
    DescribedGrows(ids, front, w);
    hide GrowingHistory;
    var was, st := Described(ids, front), FastRuns(ids, front);
    GrownRunCleanIff(ids, was, w, st);
    GoodTapeFrom(ids.futures, w.futures, st.futures.count > 0, st.futures.count);
    GoodTapeFrom(ids.spot, w.spot, st.spot.count > 0, st.spot.count);
  }

  /** `int(value)` succeeds. */
  ghost predicate Numeric(v: Value) {
    v.Int? || v.Bool? || ((v.Text? || v.Other?) && v.number.Some?)
  }

  /** `int(value or 0)` succeeds. */
  ghost predicate NumericOrEmpty(v: Value) {
    Numeric(v) || v.Absent? || (v.Text? && v.text == "") || (v.Other? && v.falsy)
  }

  /** What the full scan asks of manifest i; a missing data file goes with a missing digest. */
  ghost predicate FullReadsWell(id: Identity, tape: Tape, ms: seq<Manifest>, i: nat)
    requires i < |ms|
  {
    && ms[i].content.Object?
    && var p := ms[i].content.payload;
       && (if p.dataName in tape.data then p.digest.Text? && p.digest.text == tape.data[p.dataName].digest else p.digest.Absent?)
       && NamesPrevious(ms[i], if i == 0 then None else ActualOf(tape, ms[i - 1]))
       && Identified(id, p)
       && Numeric(p.bucket) && Numeric(p.received) && NumericOrEmpty(p.size) && NumericOrEmpty(p.plain)
  }

  lemma FullManifestCleanIff(id: Identity, tape: Tape, f: Full, ms: seq<Manifest>, i: nat)
    requires i < |ms|
    requires f.previous == if i == 0 then None else ActualOf(tape, ms[i - 1])
    ensures var g := FullManifest(id, tape, f, ms[i]);
            && (!g.aborted && g.faults == [] <==> !f.aborted && f.faults == [] && FullReadsWell(id, tape, ms, i))
            && (!g.aborted && g.faults == [] ==> g.previous == ActualOf(tape, ms[i]) && |g.samples| == |f.samples| + 1)
  {
  }

  /**
   The full scan for every directory: it reports nothing and counts every manifest if and only if each is
   a JSON object whose digest is its segment's hash, whose predecessor is the segment before it, whose
   identity is the expected one and whose numbers are numbers.
   */
  lemma {:induction false} FullScanCleanIff(id: Identity, tape: Tape, ms: seq<Manifest>)
    ensures var f := FullScan(id, tape, ms);
            && (!f.aborted && f.faults == [] <==> forall i :: 0 <= i < |ms| ==> FullReadsWell(id, tape, ms, i))
            && (!f.aborted && f.faults == [] ==>
                  |f.samples| == |ms| && f.previous == if ms == [] then None else ActualOf(tape, ms[|ms| - 1]))
  {
    if ms == [] {
      EmptyScan(id, tape);
    } else {
      var front, k := ms[..|ms| - 1], |ms| - 1;
      FullScanCleanIff(id, tape, front);
      var f := FullScan(id, tape, front);
      forall i | 0 <= i < k
        ensures FullReadsWell(id, tape, front, i) <==> FullReadsWell(id, tape, ms, i)
      {
        assert front[i] == ms[i] && (i > 0 ==> front[i - 1] == ms[i - 1]);
      }
      hide FullReadsWell;
      if !f.aborted && f.faults == [] {
        hide FullManifest;
        FullManifestCleanIff(id, tape, f, ms, k);
      } else {
        FullFaultsStick(id, tape, f, ms[k]);
        var i :| 0 <= i < k && !FullReadsWell(id, tape, front, i);
        assert !FullReadsWell(id, tape, ms, i);
      }
    }
  }

  lemma FullFaultsStick(id: Identity, tape: Tape, f: Full, m: Manifest)
    requires f.aborted || f.faults != []
    ensures FullManifest(id, tape, f, m).aborted || FullManifest(id, tape, f, m).faults != []
  {
  }

  /** A manifest that names no segment is malformed; of any other, each fault names what is wrong with it. */
  lemma FaultsNameTheirCause(id: Identity, tape: Tape, metadataOnly: bool, t: Totals, m: Manifest, x: Fault)
    ensures var faults := FastManifest(id, tape, metadataOnly, Fast(t, []), m).faults;
            if m.content.Object? && NamesSegment(tape, m.content.payload)
            then x in faults <==> Causes(id, tape, metadataOnly, t.last, m, x)
            else faults == [Malformed]
  {
    if m.content.Object? && NamesSegment(tape, m.content.payload) {
      FaultsInOrder(id, tape, metadataOnly, t, m);
      var p := m.content.payload;
      IdentityCauses(id, p, x);
      hide IdentityFaults, FastManifest, NamesSegment, DeclaresSize, CarriesNumbers, NamesPrevious;
      var size := if DeclaresSize(p.size, tape.data[p.dataName].size) then [] else [DataSize];
      InSum(size, IdentityFaults(id, p), LinkFaults(tape, metadataOnly, t, m), x);
    }
  }

  lemma InSum(a: seq<Fault>, b: seq<Fault>, c: seq<Fault>, x: Fault)
    ensures x in a + b + c <==> x in a || x in b || x in c
  {
  }

  ghost predicate Causes(id: Identity, tape: Tape, metadataOnly: bool, last: Option<string>, m: Manifest, x: Fault)
    requires m.content.Object? && NamesSegment(tape, m.content.payload)
  {
    var p, data := m.content.payload, tape.data[m.content.payload.dataName];
    match x
    case Malformed => !CarriesNumbers(p)
    case DataSize => !DeclaresSize(p.size, data.size)
    case WrongCampaign => p.campaign.Text? ==> p.campaign.text != id.campaign
    case WrongMarket => p.market.Text? ==> p.market.text != id.market
    case WrongSource => p.source.Text? ==> p.source.text != id.source
    case WrongSchema => p.schema.Text? ==> p.schema.text != id.schema
    case PreviousHash => CarriesNumbers(p) && !NamesPrevious(m, last)
    case DataHash => CarriesNumbers(p) && !metadataOnly && p.digest.text != data.digest
    case _ => false
  }

  /** The faults found after the identity checks. */
  ghost function LinkFaults(tape: Tape, metadataOnly: bool, t: Totals, m: Manifest): seq<Fault>
    requires m.content.Object? && NamesSegment(tape, m.content.payload)
  {
    var p := m.content.payload;
    if !CarriesNumbers(p) then [Malformed]
    else (if NamesPrevious(m, t.last) then [] else [PreviousHash]) +
         (if metadataOnly || p.digest.text == tape.data[p.dataName].digest then [] else [DataHash])
  }

  lemma FaultsInOrder(id: Identity, tape: Tape, metadataOnly: bool, t: Totals, m: Manifest)
    requires m.content.Object? && NamesSegment(tape, m.content.payload)
    ensures var p := m.content.payload;
            FastManifest(id, tape, metadataOnly, Fast(t, []), m).faults
            == (if DeclaresSize(p.size, tape.data[p.dataName].size) then [] else [DataSize])
             + IdentityFaults(id, p) + LinkFaults(tape, metadataOnly, t, m)
  {
    hide IdentityFaults;
  }

  lemma IdentityCauses(id: Identity, p: Payload, x: Fault)
    ensures x in IdentityFaults(id, p) <==>
            match x
            case WrongCampaign => p.campaign.Text? ==> p.campaign.text != id.campaign
            case WrongMarket => p.market.Text? ==> p.market.text != id.market
            case WrongSource => p.source.Text? ==> p.source.text != id.source
            case WrongSchema => p.schema.Text? ==> p.schema.text != id.schema
            case _ => false
  {
  }

  // ---------------------------------------------------------------- directories that did not only grow

  /** How many manifests are named at or before the cursor. */
  function NamedUpTo(ms: seq<Manifest>, name: int): nat {
    if ms == [] then 0 else NamedUpTo(ms[..|ms| - 1], name) + if ms[|ms| - 1].name <= name then 1 else 0
  }

  lemma {:induction false} OldAndNew(cursor: Cursor, ms: seq<Manifest>)
    requires cursor.name.Some?
    ensures |NewManifests(cursor, ms)| + NamedUpTo(ms, cursor.name.value) == |ms|
  {
    if ms != [] {
      OldAndNew(cursor, ms[..|ms| - 1]);
    }
  }

  /** The two count checks together: they object exactly when the number of manifests up to the cursor changed. */
  lemma CountsObjectIff(cursor: Cursor, ms: seq<Manifest>)
    requires cursor.name.Some?
    ensures CountFaults(cursor, |ms|, |NewManifests(cursor, ms)|) != [] <==> NamedUpTo(ms, cursor.name.value) != cursor.count
  {
    OldAndNew(cursor, ms);
  }

  lemma {:induction false} ReadFaultsAreOfManifests(id: Identity, tape: Tape, metadataOnly: bool, t: Totals, ms: seq<Manifest>, x: Fault)
    requires x in {CountDecreased, CountChanged, PartialName, PartialStat}
    ensures x !in FastManifests(id, tape, metadataOnly, Fast(t, []), ms).faults
  {
    if ms != [] {
      ReadFaultsAreOfManifests(id, tape, metadataOnly, t, ms[..|ms| - 1], x);
      var f := FastManifests(id, tape, metadataOnly, Fast(t, []), ms[..|ms| - 1]);
      hide FastManifests;
      OneAddsNoMarketFault(id, tape, metadataOnly, f, ms[|ms| - 1], x);
    }
  }

  lemma OneAddsNoMarketFault(id: Identity, tape: Tape, metadataOnly: bool, f: Fast, m: Manifest, x: Fault)
    requires x in {CountDecreased, CountChanged, PartialName, PartialStat} && x !in f.faults
    ensures x !in FastManifest(id, tape, metadataOnly, f, m).faults
  {
    hide Usable, Measured, Counted, IdentityFaults;
    if m.content.Object? {
      NoIdentityFault(id, m.content.payload, x);
    }
  }

  lemma NoIdentityFault(id: Identity, p: Payload, x: Fault)
    requires x in {CountDecreased, CountChanged, PartialName, PartialStat}
    ensures x !in IdentityFaults(id, p)
  {
  }

  lemma {:induction false} PartialFaultsName(ps: seq<Partial>, x: Fault)
    ensures x in PartialFaults(ps) <==>
            exists i :: 0 <= i < |ps| && x == (if ps[i].bucket.None? then PartialName else PartialStat) && (ps[i].bucket.None? || ps[i].size.None?)
  {
    if ps != [] {
      var front, p := ps[..|ps| - 1], ps[|ps| - 1];
      PartialFaultsName(front, x);
      assert forall i :: 0 <= i < |front| ==> front[i] == ps[i];
    }
  }

  /**
   The faults of a market as a whole: a count that fell, a count that is not what the new manifests make of
   it, a partial without a bucket in its name, and one that could not be measured. Each is reported exactly
   when it is there, and nothing about counts before the first cursor.
   */
  lemma MarketFaultsName(id: Identity, tape: Tape, cursor: Cursor)
    ensures var faults := FastMarket(id, tape, cursor).1;
            var present, added := |tape.manifests|, |NewManifests(cursor, tape.manifests)|;
            && (CountDecreased in faults <==> cursor.name.Some? && present < cursor.count)
            && (CountChanged in faults <==> cursor.name.Some? && present != cursor.count + added)
            && (PartialName in faults <==> exists i :: 0 <= i < |tape.partials| && tape.partials[i].bucket.None?)
            && (PartialStat in faults <==> exists i :: 0 <= i < |tape.partials| && tape.partials[i].bucket.Some? && tape.partials[i].size.None?)
  {
    hide FastMarket, NewManifests, PartialFaults;
    MarketFault(id, tape, cursor, CountDecreased);
    MarketFault(id, tape, cursor, CountChanged);
    MarketFault(id, tape, cursor, PartialName);
    MarketFault(id, tape, cursor, PartialStat);
    PartialFaultsName(tape.partials, CountDecreased);
    PartialFaultsName(tape.partials, CountChanged);
    PartialFaultsName(tape.partials, PartialName);
    PartialFaultsName(tape.partials, PartialStat);
  }

  lemma MarketFault(id: Identity, tape: Tape, cursor: Cursor, x: Fault)
    requires x in {CountDecreased, CountChanged, PartialName, PartialStat}
    ensures x in FastMarket(id, tape, cursor).1 <==>
            || x in CountFaults(cursor, |tape.manifests|, |NewManifests(cursor, tape.manifests)|)
            || x in PartialFaults(tape.partials)
  {
    var added, bootstrap := NewManifests(cursor, tape.manifests), cursor.name.None? && cursor.count == 0;
    var f := FastManifests(id, tape, bootstrap, Fast(cursor.totals, []), added);
    ReadFaultsAreOfManifests(id, tape, bootstrap, cursor.totals, added, x);
    InSum(CountFaults(cursor, |tape.manifests|, |added|), f.faults, PartialFaults(tape.partials), x);
    hide FastManifests, NewManifests, PartialFaults, CountFaults;
  }

  /**
   What a FAST run notices of a changed past. Take a directory over which the run is error-free, and
   change, rename, remove or add manifests up to the cursor in any way: the run over the result is
   error-free if and only if as many manifests as counted are still named up to the cursor, and then it
   persists exactly what it would have persisted.
   */
  lemma ChangedPastReportedIff(id: Identity, tape: Tape, changed: seq<Manifest>, cursor: Cursor)
    requires cursor.name.Some? && FastMarket(id, tape, cursor).1 == []
    requires NewManifests(cursor, changed) == NewManifests(cursor, tape.manifests)
    ensures var other := tape.(manifests := changed);
            && (FastMarket(id, other, cursor).1 == [] <==> NamedUpTo(changed, cursor.name.value) == cursor.count)
            && FastMarket(id, other, cursor).0 == FastMarket(id, tape, cursor).0
  {
    var other, added := tape.(manifests := changed), NewManifests(cursor, changed);
    CountsObjectIff(cursor, changed);
    FastIgnoresListing(id, tape, other, false, Fast(cursor.totals, []), added);
    hide FastManifests, NewManifests, NamedUpTo;
    var f := FastManifests(id, tape, false, Fast(cursor.totals, []), added);
    assert f.faults == [] && PartialFaults(tape.partials) == [] by {
      var c := CountFaults(cursor, |tape.manifests|, |added|);
      assert c + f.faults + PartialFaults(tape.partials) == [];
    }
    var c := CountFaults(cursor, |changed|, |added|);
    assert FastMarket(id, other, cursor).1 == c + [] + [];
  }

  lemma FastManifestIgnoresListing(id: Identity, tape: Tape, other: Tape, metadataOnly: bool, f: Fast, m: Manifest)
    requires other.data == tape.data
    ensures FastManifest(id, other, metadataOnly, f, m) == FastManifest(id, tape, metadataOnly, f, m)
  {
    hide IdentityFaults;
  }

  lemma {:induction false} FastIgnoresListing(id: Identity, tape: Tape, other: Tape, metadataOnly: bool, f: Fast, ms: seq<Manifest>)
    requires other.data == tape.data
    ensures FastManifests(id, other, metadataOnly, f, ms) == FastManifests(id, tape, metadataOnly, f, ms)
  {
    if ms != [] {
      hide FastManifest;
      var front := ms[..|ms| - 1];
      FastIgnoresListing(id, tape, other, metadataOnly, f, front);
      FastManifestIgnoresListing(id, tape, other, metadataOnly, FastManifests(id, tape, metadataOnly, f, front), ms[|ms| - 1]);
    }
  }

  /** One genuine segment under the given manifest name and size. */
  function OneSegment(id: Identity, name: int, size: nat): Tape {
    var p := Payload(Absent, Text("digest", None), Int(size),
                     Text(id.campaign, None), Text(id.market, None), Text(id.source, None), Text(id.schema, None),
                     Int(0), Int(0), Int(1), "segment", true);
    Tape([Manifest(name, 1, Object(p))], map["segment" := DataFile(size, "digest", true)], [])
  }

  lemma OneSegmentScans(id: Identity, name: int, size: nat)
    ensures var tape := OneSegment(id, name, size);
            && FastMarket(id, tape, BLANK_CURSOR) == (Cursor(Some(name), 1, Totals(size, 1, 1, Some(0), Some("digest")), true), [])
            && FullScan(id, tape, tape.manifests) == Full([Sample(0, 0, size, 1, 1)], Some("digest"), [], false)
  {
    var tape := OneSegment(id, name, size);
    var ms := tape.manifests;
    var m, p := ms[0], ms[0].content.payload;
    assert ms[..0] == [] && NewManifests(BLANK_CURSOR, []) == [];
    assert NewManifests(BLANK_CURSOR, ms) == ms;
    var start := Fast(BLANK_CURSOR.totals, []);
    assert FastManifests(id, tape, true, start, []) == start;
    assert IdentityFaults(id, p) == [];
    assert FastManifests(id, tape, true, start, ms) == FastManifest(id, tape, true, start, m);
    EmptyScan(id, tape);
    assert FullScan(id, tape, ms) == FullManifest(id, tape, Full([], None, [], false), m);
  }

  /**
   The one counted manifest, named 5, is replaced by another named 4 for a segment of another size: the
   next FAST run reports nothing and keeps the old total, while an error-free full scan has the new one.
   */
  lemma ReplacedManifestGoesUnnoticed(id: Identity)
    ensures var cursor := FastMarket(id, OneSegment(id, 5, 10), BLANK_CURSOR).0;
            var after := OneSegment(id, 4, 20);
            && FastMarket(id, after, cursor) == (cursor, []) && cursor.totals.finalized == 10
            && FullScan(id, after, after.manifests).faults == []
            && Compressed(FullScan(id, after, after.manifests).samples) == 20
  {
    OneSegmentScans(id, 5, 10);
    OneSegmentScans(id, 4, 20);
    var cursor := FastMarket(id, OneSegment(id, 5, 10), BLANK_CURSOR).0;
    var after := OneSegment(id, 4, 20);
    assert |after.manifests| == 1 && after.manifests[0].name == 4 && after.partials == [];
    hide FullScan, OneSegment;
    var samples := FullScan(id, after, after.manifests).samples;
    assert samples[..0] == [] && Compressed([]) == 0;
    assert Compressed(samples) == 20;
    hide FastMarket, Compressed;
    NothingToRead(id, after, cursor);
  }

  /** A run with nothing new, as many old manifests as counted and no partials leaves the cursor alone. */
  lemma NothingToRead(id: Identity, tape: Tape, cursor: Cursor)
    requires cursor.name.Some? && |tape.manifests| == cursor.count && tape.partials == []
    requires forall i :: 0 <= i < |tape.manifests| ==> tape.manifests[i].name <= cursor.name.value
    ensures FastMarket(id, tape, cursor) == (cursor, [])
  {
    NothingNew(cursor, tape.manifests);
    var added := NewManifests(cursor, tape.manifests);
    hide NewManifests;
    assert FastManifests(id, tape, false, Fast(cursor.totals, []), added) == Fast(cursor.totals, []);
    assert CountFaults(cursor, |tape.manifests|, |added|) == [] && PartialFaults(tape.partials) == [];
    var next := FastMarket(id, tape, cursor);
    assert next.1 == [] && next.0.name == cursor.name && next.0.count == cursor.count && next.0.totals == cursor.totals;
  }

  // ---------------------------------------------------------------- the bootstrap pass at a forged segment

  /** One segment whose data does not hash to what its manifest declares. */
  function ForgedTape(id: Identity): Tape {
    var p := Payload(Absent, Text("declared", None), Int(1),
                     Text(id.campaign, None), Text(id.market, None), Text(id.source, None), Text(id.schema, None),
                     Int(0), Int(0), Int(1), "segment", true);
    Tape([Manifest(0, 1, Object(p))], map["segment" := DataFile(1, "actual", true)], [])
  }

  /** The bootstrap pass accepts a forged segment that the full scan reports. */
  lemma BootstrapTrustsDeclaredHash(id: Identity)
    ensures var tape := ForgedTape(id);
            && FastMarket(id, tape, BLANK_CURSOR).1 == []
            && FastMarket(id, tape, BLANK_CURSOR).0.totals.last == Some("declared")
            && FullScan(id, tape, tape.manifests).faults == [DataHash]
            && FullScan(id, tape, tape.manifests).previous == Some("actual")
  {
    var tape := ForgedTape(id);
    var ms := tape.manifests;
    var m, p := ms[0], ms[0].content.payload;
    assert ms[..0] == [] && NewManifests(BLANK_CURSOR, []) == [];
    assert NewManifests(BLANK_CURSOR, ms) == ms;
    var start := Fast(BLANK_CURSOR.totals, []);
    assert FastManifests(id, tape, true, start, []) == start;
    assert IdentityFaults(id, p) == [];
    assert FastManifests(id, tape, true, start, ms) == FastManifest(id, tape, true, start, m);
    assert FullScan(id, tape, []) == Full([], None, [], false);
    assert FullScan(id, tape, ms) == FullManifest(id, tape, Full([], None, [], false), m);
  }

  // ---------------------------------------------------------------- the scanners as they run

  /** The manifest reader hands over its paths in bounded batches, in order and each exactly once. */
  method ReadInBatches(paths: seq<Manifest>, batchSize: nat) returns (read: seq<Manifest>)
    requires batchSize >= 1
    ensures read == paths
  {
    read := [];
    var start := 0;
    while start < |paths|
      invariant 0 <= start && read == paths[..if start <= |paths| then start else |paths|]
      decreases |paths| - start
    {
      var end := if start + batchSize <= |paths| then start + batchSize else |paths|;
      var batch := paths[start..end];
      var i := 0;
      while i < |batch|
        invariant 0 <= i <= |batch| && read == paths[..start + i]
      {
        read := read + [batch[i]];
        i := i + 1;
      }
      start := start + batchSize;
    }
  }

  method FullReadManifest(id: Identity, tape: Tape, f: Full, m: Manifest) returns (next: Full)
    requires !f.aborted
    ensures next == FullManifest(id, tape, f, m)
  {
    if m.content.NotObject? {
      return f.(aborted := true);
    }
    var samples, previous, faults := f.samples, f.previous, f.faults;
    if m.content.Object? {
      var p := m.content.payload;
      var actual := if p.dataName in tape.data then Some(tape.data[p.dataName].digest) else None;
      if !p.digest.Is(actual) {
        faults := faults + [DataHash];
      }
      if !p.previous.Is(previous) {
        faults := faults + [PreviousHash];
      }
      faults := faults + IdentityFaults(id, p);
      assert faults == f.faults + FullFaults(id, tape, previous, p);
      var sample := FullSample(m, p);
      if sample.Some? {
        samples := samples + [sample.value];
        previous := actual;
      } else {
        faults := faults + [Malformed];
      }
    } else {
      faults := faults + [Malformed];
    }
    next := Full(samples, previous, faults, false);
  }

  method FullScanMarket(id: Identity, tape: Tape) returns (f: Full)
    ensures f == FullScan(id, tape, tape.manifests)
  {
    f := Full([], None, [], false);
    for i := 0 to |tape.manifests|
      invariant f == FullScan(id, tape, tape.manifests[..i]) && !f.aborted
    {
      assert tape.manifests[..i + 1][..i] == tape.manifests[..i];
      f := FullReadManifest(id, tape, f, tape.manifests[i]);
      if f.aborted {
        FullAbortSticks(id, tape, tape.manifests, i + 1);
        return;
      }
    }
    assert tape.manifests[..|tape.manifests|] == tape.manifests;
  }

  lemma {:induction false} FullAbortSticks(id: Identity, tape: Tape, ms: seq<Manifest>, k: nat)
    requires k <= |ms| && FullScan(id, tape, ms[..k]).aborted
    ensures FullScan(id, tape, ms) == FullScan(id, tape, ms[..k])
    decreases |ms|
  {
    if k == |ms| {
      assert ms[..k] == ms;
    } else {
      assert ms[..|ms| - 1][..k] == ms[..k];
      FullAbortSticks(id, tape, ms[..|ms| - 1], k);
    }
  }

  method FastReadManifest(id: Identity, tape: Tape, metadataOnly: bool, f: Fast, m: Manifest) returns (next: Fast)
    ensures next == FastManifest(id, tape, metadataOnly, f, m)
  {
    hide IdentityFaults;
    var t, faults := f.totals, f.faults;
    if !m.content.Object? || !Usable(tape, m.content.payload) {
      return Fast(t, faults + [Malformed]);
    }
    var p := m.content.payload;
    var data := tape.data[p.dataName];
    if data.size != p.size.AsInt() {
      faults := faults + [DataSize];
    }
    faults := faults + IdentityFaults(id, p);
    if !Measured(p) {
      return Fast(t, faults + [Malformed]);
    }
    if !p.previous.Is(t.last) {
      faults := faults + [PreviousHash];
    }
    var actual := p.digest.text;
    if !metadataOnly {
      actual := data.digest;
      if actual != p.digest.text {
        faults := faults + [DataHash];
      }
    }
    var maxPlain := if p.plain.n > t.maxPlain then p.plain.n else t.maxPlain;
    var latest := if t.latest.Some? && t.latest.value > p.received.n then t.latest.value else p.received.n;
    next := Fast(Totals(t.finalized + data.size, t.manifestBytes + m.bytes, maxPlain, Some(latest), Some(actual)), faults);
  }

  method FastReadManifests(id: Identity, tape: Tape, metadataOnly: bool, totals: Totals, added: seq<Manifest>)
    returns (f: Fast)
    ensures f == FastManifests(id, tape, metadataOnly, Fast(totals, []), added)
  {
    var read := ReadInBatches(added, 128);
    f := Fast(totals, []);
    for i := 0 to |read|
      invariant f == FastManifests(id, tape, metadataOnly, Fast(totals, []), added[..i])
    {
      assert added[..i + 1][..i] == added[..i];
      f := FastReadManifest(id, tape, metadataOnly, f, read[i]);
    }
    assert added[..|added|] == added;
  }

  method FastMarketPass(id: Identity, tape: Tape, cursor: Cursor) returns (next: Cursor, faults: seq<Fault>)
    ensures (next, faults) == FastMarket(id, tape, cursor)
  {
    var added := NewManifests(cursor, tape.manifests);
    var metadataOnly := cursor.name.None? && cursor.count == 0;
    faults := CountFaults(cursor, |tape.manifests|, |added|);
    var f := FastReadManifests(id, tape, metadataOnly, cursor.totals, added);
    var name := if added != [] && f.faults == [] then Some(added[|added| - 1].name) else cursor.name;
    next := Cursor(name, cursor.count + |added|, f.totals, cursor.metadataOnly || (metadataOnly && added != []));
    faults := faults + f.faults + PartialFaults(tape.partials);
  }

  class FastHealth {
    var persisted: State

    constructor ()
      ensures persisted == BLANK_STATE
    {
      persisted := BLANK_STATE;
    }

    /** A run that reports anything leaves the state file as it was. */
    method ReadSegmentsFast(ids: Identities, w: World) returns (faults: seq<Fault>)
      modifies this
      ensures (persisted, faults) == FastRun(ids, w, old(persisted))
      ensures faults != [] ==> persisted == old(persisted)
    {
      var futures, e1 := FastMarketPass(ids.futures, w.futures, persisted.futures);
      var spot, e2 := FastMarketPass(ids.spot, w.spot, persisted.spot);
      faults := e1 + e2;
      if faults == [] {
        persisted := State(futures, spot);
      }
    }
  }
}
