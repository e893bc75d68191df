/**
 The uploader over whole histories: generations arrive, outsiders write to them, daily runs upload,
 verify and prune, removals fail half-way, and the process is killed while staging.
 */
module UploaderRuns {
  import opened Prelude
  import opened PruneStaging

  /** `receipts` holds the saved manifest of a day and its receipt; `drive` the bundles the remote holds. */
  datatype Uploader = Uploader(fs: Fs, manifests: map<int, Manifest>, receipts: map<int, Receipt>,
                               drive: map<int, Manifest>, gone: seq<Deletion>)

  /** One removal: the directory as it was removed, the inventory its last hash saw, and the days. */
  datatype Deletion = Deletion(name: string, dir: Dir, seen: seq<Entry>, day: int, today: int)

  /** `Kill` is the process dying after staging `staged` directories, before any rollback. */
  datatype Step =
    | Arrive(name: string, dir: Dir)
    | Write(name: string, dir: Dir)
    | ProcessDate(day: int, dirs: seq<string>, today: int, uploadWorks: bool, hazards: seq<Hazard>, removals: Removals)
    | Kill(day: int, dirs: seq<string>, today: int, uploadWorks: bool, hazards: seq<Hazard>, staged: nat)

  function CurrentManifest(config: Config, fs: Fs, dirs: seq<string>, day: int): Manifest
    requires forall i :: 0 <= i < |dirs| ==> dirs[i] in fs.capture
  {
    Manifest(MANIFEST_SCHEMA, day, config.host, |dirs|,
             seq(|dirs|, i requires 0 <= i < |dirs| => Record(dirs[i], fs.capture[dirs[i]].files, day)))
  }

  /** The directory listing of a date: its clean generations, each once. */
  predicate Listing(fs: Fs, dirs: seq<string>, day: int) {
    && (forall i, j :: 0 <= i < j < |dirs| ==> dirs[i] != dirs[j])
    && (forall i :: 0 <= i < |dirs| ==> dirs[i] in fs.capture && fs.capture[dirs[i]].terminalDay == Some(day))
    && (forall n :: n in fs.capture && fs.capture[n].terminalDay == Some(day) ==> n in dirs)
  }

  function ReceiptFor(config: Config, m: Manifest): Receipt {
    Receipt(RECEIPT_SCHEMA, m.day, config.host, true, true, m, Remote(config.host, m.day, "tar"),
            Remote(config.host, m.day, "manifest.json"), Remote(config.host, m.day, "receipt.json"), m.generationCount)
  }

  /** The verified bundle of the day, uploading it first when there is none; None is a failure. */
  function Bundle(config: Config, u: Uploader, dirs: seq<string>, day: int, uploadWorks: bool): Option<Uploader>
    requires forall i :: 0 <= i < |dirs| ==> dirs[i] in u.fs.capture
  {
    var current := CurrentManifest(config, u.fs, dirs, day);
    if day in u.receipts then
      if day !in u.manifests || !Verified(config, u.manifests[day], u.receipts[day]) || u.manifests[day].day != day
        || !Contains(u.manifests[day], current) then None
      else Some(u)
    else if day in u.manifests && u.manifests[day] != current then None
    else if !uploadWorks then Some(u.(manifests := u.manifests[day := current]))
    else Some(u.(manifests := u.manifests[day := current], drive := u.drive[day := current],
                 receipts := u.receipts[day := ReceiptFor(config, current)]))
  }

  function Deletions(fs: Fs, names: seq<string>, hazards: seq<Hazard>, removed: map<string, Dir>, day: int, today: int): seq<Deletion>
    requires |hazards| == |names| && forall i :: 0 <= i < |names| ==> names[i] in fs.capture
  {
    if names == [] then []
    else
      var k := |names| - 1;
      var n := names[k];
      Deletions(fs, names[..k], hazards[..k], removed, day, today) +
      if n in removed then [Deletion(n, removed[n], Seen(fs.capture[n], hazards[k]).files, day, today)] else []
  }

  /** The run may go on to prune: a day past, a listing of its clean generations, and its bundle. */
  function Opened(config: Config, u: Uploader, day: int, dirs: seq<string>, today: int, uploadWorks: bool): Option<Uploader> {
    if day >= today || dirs == [] || !Listing(u.fs, dirs, day) then None else Bundle(config, u, dirs, day, uploadWorks)
  }

  function Pruned(config: Config, v: Uploader, day: int, dirs: seq<string>, today: int, hazards: seq<Hazard>,
                  removals: Removals): Uploader
    requires day in v.receipts && day in v.manifests && |hazards| == |dirs|
    requires forall i :: 0 <= i < |dirs| ==> dirs[i] in v.fs.capture
  {
    var p := PruneDate(config, v.fs, dirs, v.manifests[day], v.receipts[day], today, hazards, removals);
    v.(fs := p.fs, gone := v.gone + Deletions(v.fs, dirs, hazards, p.removed, day, today))
  }

  function Killed(config: Config, v: Uploader, day: int, dirs: seq<string>, today: int, hazards: seq<Hazard>, k: nat): Uploader
    requires day in v.receipts && day in v.manifests && |hazards| == |dirs| && k <= |dirs|
  {
    var m, r := v.manifests[day], v.receipts[day];
    if m.day >= today - config.keepDays || !Cleared(config, v.fs, dirs, m, r) then v
    else v.(fs := Stage(v.fs, ByName(m.records), dirs[..k], hazards[..k]).fs)
  }

  function Next(config: Config, u: Uploader, s: Step): Uploader {
    match s
    case Arrive(name, dir) =>
      if name in u.fs.capture then u else u.(fs := u.fs.(capture := u.fs.capture[name := dir]))
    case Write(name, dir) =>
      u.(fs := Fs(Written(u.fs.capture, name, Some(dir)), Written(u.fs.quarantine, name, Some(dir))))
    case ProcessDate(day, dirs, today, uploadWorks, hazards, removals) =>
      var v := Opened(config, u, day, dirs, today, uploadWorks);
      if v.None? || |hazards| != |dirs| then u
      else if config.pruneEnabled && day in v.value.receipts && day in v.value.manifests then Pruned(config, v.value, day, dirs, today, hazards, removals)
      else v.value
    case Kill(day, dirs, today, uploadWorks, hazards, staged) =>
      var v := Opened(config, u, day, dirs, today, uploadWorks);
      if v.None? || |hazards| != |dirs| || staged > |dirs| then u
      else if config.pruneEnabled && day in v.value.receipts && day in v.value.manifests then Killed(config, v.value, day, dirs, today, hazards, staged)
      else v.value
  }

  function Run(config: Config, steps: seq<Step>): Uploader {
    if steps == [] then Uploader(Fs(map[], map[]), map[], map[], map[], [])
    else Next(config, Run(config, steps[..|steps| - 1]), steps[|steps| - 1])
  }

  /** The remote bundle of the deletion's day lists the directory with the inventory it was removed with. */
  ghost predicate Archived(u: Uploader, d: Deletion) {
    d.day in u.drive && Lists(u.drive[d.day].records, d.name, d.dir.files)
  }

  /** The remote bundle lists it, once, with the inventory its last hash saw; and it was past retention. */
  ghost predicate Vouched(config: Config, u: Uploader, d: Deletion) {
    && d.day in u.drive && UniqueNames(u.drive[d.day].records) && Lists(u.drive[d.day].records, d.name, d.seen)
    && d.day < d.today - config.keepDays
  }

  ghost predicate Inv(config: Config, u: Uploader) {
    && (forall day :: day in u.receipts ==>
          day in u.manifests && day in u.drive && u.drive[day] == u.manifests[day] && u.manifests[day].day == day)
    && (forall day :: day in u.drive ==> day in u.receipts)
    && (forall i :: 0 <= i < |u.gone| ==> Vouched(config, u, u.gone[i]))
  }

  lemma BundleKeepsInv(config: Config, u: Uploader, dirs: seq<string>, day: int, uploadWorks: bool)
    requires Inv(config, u) && forall i :: 0 <= i < |dirs| ==> dirs[i] in u.fs.capture
    requires Bundle(config, u, dirs, day, uploadWorks).Some?
    ensures var v := Bundle(config, u, dirs, day, uploadWorks).value;
            Inv(config, v) && v.fs == u.fs && v.gone == u.gone
  {
    var v := Bundle(config, u, dirs, day, uploadWorks).value;
    hide Lists, UniqueNames;
    forall i | 0 <= i < |u.gone|
      ensures Vouched(config, v, v.gone[i])
    {
      assert Vouched(config, u, u.gone[i]);
    }
  }

  lemma {:induction false} DeletionsAre(fs: Fs, names: seq<string>, hazards: seq<Hazard>, removed: map<string, Dir>, day: int, today: int)
    requires |hazards| == |names| && forall i :: 0 <= i < |names| ==> names[i] in fs.capture
    ensures forall d :: d in Deletions(fs, names, hazards, removed, day, today) <==>
              exists i :: 0 <= i < |names| && IsDeletion(fs, names[i], hazards[i], removed, day, today, d)
  {
    if names != [] {
      var k := |names| - 1;
      var front := Deletions(fs, names[..k], hazards[..k], removed, day, today);
      DeletionsAre(fs, names[..k], hazards[..k], removed, day, today);
      hide IsDeletion;
      forall d
        ensures d in Deletions(fs, names, hazards, removed, day, today) <==>
                exists i :: 0 <= i < |names| && IsDeletion(fs, names[i], hazards[i], removed, day, today, d)
      {
        LastDeletion(fs, names, hazards, removed, day, today, d);
        if i :| 0 <= i < |names| && IsDeletion(fs, names[i], hazards[i], removed, day, today, d) {
          assert i < k ==> names[..k][i] == names[i] && hazards[..k][i] == hazards[i];
        }
        if i :| 0 <= i < k && IsDeletion(fs, names[..k][i], hazards[..k][i], removed, day, today, d) {
          assert IsDeletion(fs, names[i], hazards[i], removed, day, today, d);
        }
      }
    }
  }

  lemma LastDeletion(fs: Fs, names: seq<string>, hazards: seq<Hazard>, removed: map<string, Dir>, day: int, today: int, d: Deletion)
    requires names != [] && |hazards| == |names| && forall i :: 0 <= i < |names| ==> names[i] in fs.capture
    ensures var k := |names| - 1;
            d in Deletions(fs, names, hazards, removed, day, today) <==>
            || d in Deletions(fs, names[..k], hazards[..k], removed, day, today)
            || IsDeletion(fs, names[k], hazards[k], removed, day, today, d)
  {
  }

  /** d records the removal of this directory under this hazard. */
  ghost predicate IsDeletion(fs: Fs, name: string, h: Hazard, removed: map<string, Dir>, day: int, today: int, d: Deletion)
    requires name in fs.capture
  {
    name in removed && d == Deletion(name, removed[name], Seen(fs.capture[name], h).files, day, today)
  }

  lemma PruneKeepsInv(config: Config, v: Uploader, day: int, dirs: seq<string>, today: int, hazards: seq<Hazard>, removals: Removals)
    requires Inv(config, v) && day in v.receipts && |hazards| == |dirs| && Distinct(dirs)
    requires forall i :: 0 <= i < |dirs| ==> dirs[i] in v.fs.capture
    ensures Inv(config, Pruned(config, v, day, dirs, today, hazards, removals))
  {
    hide PruneDate, Stage, Verified, Lists, UniqueNames;
    var m, r := v.manifests[day], v.receipts[day];
    var p := PruneDate(config, v.fs, dirs, m, r, today, hazards, removals);
    var more := Deletions(v.fs, dirs, hazards, p.removed, day, today);
    var w := Pruned(config, v, day, dirs, today, hazards, removals);
    DeletionsAre(v.fs, dirs, hazards, p.removed, day, today);
    hide Deletions;
    forall i | 0 <= i < |w.gone|
      ensures Vouched(config, w, w.gone[i])
    {
      if i < |v.gone| {
        assert Vouched(config, v, v.gone[i]);
      } else {
        var d := more[i - |v.gone|];
        assert w.gone[i] == d && d in more;
        var k :| 0 <= k < |dirs| && IsDeletion(v.fs, dirs[k], hazards[k], p.removed, day, today, d);
        DeletedOnlyWhenVerified(config, v.fs, dirs, m, r, today, hazards, removals, k);
        RemovedIsListedIff(config, v.fs, dirs, m, r, today, hazards, removals, k);
      }
    }
  }

  lemma StepKeepsInv(config: Config, u: Uploader, s: Step)
    requires Inv(config, u)
    ensures Inv(config, Next(config, u, s))
  {
    hide PruneDate, Bundle, Deletions, Inv, Pruned, Stage;
    if s.ProcessDate? || s.Kill? {
      if Opened(config, u, s.day, s.dirs, s.today, s.uploadWorks).Some? {
        BundleKeepsInv(config, u, s.dirs, s.day, s.uploadWorks);
        var v := Bundle(config, u, s.dirs, s.day, s.uploadWorks).value;
        if config.pruneEnabled && s.day in v.receipts && s.day in v.manifests && |s.hazards| == |s.dirs| {
          if s.ProcessDate? {
            PruneKeepsInv(config, v, s.day, s.dirs, s.today, s.hazards, s.removals);
          } else if s.staged <= |s.dirs| {
            SameRecords(config, v, Next(config, u, s));
          }
        }
      }
    } else {
      SameRecords(config, u, Next(config, u, s));
    }
  }

  lemma SameRecords(config: Config, u: Uploader, v: Uploader)
    requires Inv(config, u) && v == u.(fs := v.fs)
    ensures Inv(config, v)
  {
    hide Lists, UniqueNames;
    forall i | 0 <= i < |v.gone|
      ensures Vouched(config, v, v.gone[i])
    {
      assert Vouched(config, u, u.gone[i]);
    }
  }

  lemma {:induction false} RunKeepsInv(config: Config, steps: seq<Step>)
    ensures Inv(config, Run(config, steps))
  {
    if steps != [] {
      RunKeepsInv(config, steps[..|steps| - 1]);
      StepKeepsInv(config, Run(config, steps[..|steps| - 1]), steps[|steps| - 1]);
    }
  }

  /**
   Over every history of arrivals, outside writes at any moment, uploader runs with any failures and
   kills: each removal was of a date past retention and the drive's bundle for that date still lists the
   directory with exactly the inventory its last hash saw; it lists what was removed exactly when that
   inventory had not changed between that hash and the removal.
   */
  lemma NothingDeletedUnarchived(config: Config, steps: seq<Step>, d: Deletion)
    requires d in Run(config, steps).gone
    ensures var u := Run(config, steps);
            Vouched(config, u, d) && (Archived(u, d) <==> d.dir.files == d.seen)
  {
    RunKeepsInv(config, steps);
    var u := Run(config, steps);
    hide Lists, UniqueNames;
    var i :| 0 <= i < |u.gone| && u.gone[i] == d;
    assert Vouched(config, u, u.gone[i]);
    ListsOnlyOne(u.drive[d.day].records, d.name, d.seen, d.dir.files);
  }

  /** No write falls between the last hash of a directory and its removal. */
  ghost predicate NoLateWrites(s: Step) {
    s.ProcessDate? ==> forall i :: 0 <= i < |s.hazards| ==> s.hazards[i].late.None?
  }

  lemma {:induction false} QuietRunsRemoveWhatWasSeen(config: Config, steps: seq<Step>)
    requires forall k :: 0 <= k < |steps| ==> NoLateWrites(steps[k])
    ensures forall d :: d in Run(config, steps).gone ==> d.dir.files == d.seen
  {
    if steps != [] {
      var front, s := steps[..|steps| - 1], steps[|steps| - 1];
      QuietRunsRemoveWhatWasSeen(config, front);
      QuietStepRemovesWhatWasSeen(config, Run(config, front), s);
    }
  }

  lemma QuietStepRemovesWhatWasSeen(config: Config, u: Uploader, s: Step)
    requires NoLateWrites(s) && forall d :: d in u.gone ==> d.dir.files == d.seen
    ensures forall d :: d in Next(config, u, s).gone ==> d.dir.files == d.seen
  {
    hide PruneDate, Contains, Verified, Stage, ByName;
    if s.ProcessDate? && Opened(config, u, s.day, s.dirs, s.today, s.uploadWorks).Some? && |s.hazards| == |s.dirs| {
      var v := Opened(config, u, s.day, s.dirs, s.today, s.uploadWorks).value;
      assert v.fs == u.fs && v.gone == u.gone;
      if config.pruneEnabled && s.day in v.receipts && s.day in v.manifests {
        hide Bundle, Opened, Deletions;
        assert Distinct(s.dirs);
        QuietPruneRemovesWhatWasSeen(config, v, s.day, s.dirs, s.today, s.hazards, s.removals);
      }
    }
  }

  lemma QuietPruneRemovesWhatWasSeen(config: Config, v: Uploader, day: int, dirs: seq<string>, today: int,
                                     hazards: seq<Hazard>, removals: Removals)
    requires day in v.receipts && day in v.manifests && |hazards| == |dirs| && Distinct(dirs)
    requires forall i :: 0 <= i < |dirs| ==> dirs[i] in v.fs.capture
    requires forall i :: 0 <= i < |hazards| ==> hazards[i].late.None?
    ensures forall d :: d in Pruned(config, v, day, dirs, today, hazards, removals).gone && d !in v.gone ==> d.dir.files == d.seen
  {
    hide PruneDate, Deletions, Verified, Stage, ByName;
    var m, r := v.manifests[day], v.receipts[day];
    var p := PruneDate(config, v.fs, dirs, m, r, today, hazards, removals);
    DeletionsAre(v.fs, dirs, hazards, p.removed, day, today);
    forall d | d in Deletions(v.fs, dirs, hazards, p.removed, day, today)
      ensures d.dir.files == d.seen
    {
      var k :| 0 <= k < |dirs| && IsDeletion(v.fs, dirs[k], hazards[k], p.removed, day, today, d);
      DeletedOnlyWhenVerified(config, v.fs, dirs, m, r, today, hazards, removals, k);
    }
  }

  /** Without writes in that window, over every history the drive lists exactly what was removed. */
  lemma QuietRunsArchiveEverything(config: Config, steps: seq<Step>, d: Deletion)
    requires forall k :: 0 <= k < |steps| ==> NoLateWrites(steps[k])
    requires d in Run(config, steps).gone
    ensures Archived(Run(config, steps), d)
  {
    NothingDeletedUnarchived(config, steps, d);
    QuietRunsRemoveWhatWasSeen(config, steps);
  }

  /**
   The window is real: a file written into a directory after its last hash is removed with it, and no
   bundle lists it.
   */
  lemma LateWriteIsRemovedUnarchived(config: Config)
    requires config.pruneEnabled
    ensures var dir, late := Dir([], Some(0)), Dir([Entry("late.jsonl", 1, "digest")], Some(0));
            var steps := [Arrive("g", dir), ProcessDate(0, ["g"], config.keepDays + 1, true,
                                                        [Hazard(None, false, None, false, Some(late))], Removals(1, None))];
            var u := Run(config, steps);
            u.gone == [Deletion("g", late, [], 0, config.keepDays + 1)] && !Archived(u, u.gone[0])
  {
    var dir, late := Dir([], Some(0)), Dir([Entry("late.jsonl", 1, "digest")], Some(0));
    var h := Hazard(None, false, None, false, Some(late));
    var run := ProcessDate(0, ["g"], config.keepDays + 1, true, [h], Removals(1, None));
    var steps := [Arrive("g", dir), run];
    OneArrival(config, dir);
    assert steps[..1] == [Arrive("g", dir)];
    var one := Run(config, steps[..1]);
    assert Run(config, steps) == Next(config, one, run);
    hide Run, Next;
    OneDirectoryGoes(config, one, dir, h, late);
    var u := Run(config, steps);
    assert u.gone[0] in u.gone;
    NothingDeletedUnarchived(config, steps, u.gone[0]);
  }

  lemma OneArrival(config: Config, dir: Dir)
    ensures Run(config, [Arrive("g", dir)]) == Uploader(Fs(map["g" := dir], map[]), map[], map[], map[], [])
  {
    assert [Arrive("g", dir)][..0] == [];
    assert Run(config, []) == Uploader(Fs(map[], map[]), map[], map[], map[], []);
  }

  lemma OneDirectoryGoes(config: Config, one: Uploader, dir: Dir, h: Hazard, late: Dir)
    requires config.pruneEnabled && one == Uploader(Fs(map["g" := dir], map[]), map[], map[], map[], []) && dir == Dir([], Some(0))
    requires h == Hazard(None, false, None, false, Some(late))
    ensures Next(config, one, ProcessDate(0, ["g"], config.keepDays + 1, true, [h], Removals(1, None))).gone
         == [Deletion("g", late, [], 0, config.keepDays + 1)]
  {
    OneDirectoryIsBundled(config, one, dir);
    hide Opened, Verified, PruneDate;
    var m := Manifest(MANIFEST_SCHEMA, 0, config.host, 1, [Record("g", [], 0)]);
    var v := Opened(config, one, 0, ["g"], config.keepDays + 1, true).value;
    OneDirectoryIsPruned(config, v.fs, dir, m, v.receipts[0], h, late);
    var p := PruneDate(config, v.fs, ["g"], m, v.receipts[0], config.keepDays + 1, [h], Removals(1, None));
    assert Deletions(v.fs, ["g"][..0], [h][..0], p.removed, 0, config.keepDays + 1) == [];
    assert Deletions(v.fs, ["g"], [h], p.removed, 0, config.keepDays + 1) == [Deletion("g", late, [], 0, config.keepDays + 1)];
    hide Deletions;
  }

  lemma OneDirectoryIsBundled(config: Config, u: Uploader, dir: Dir)
    requires u.fs == Fs(map["g" := dir], map[]) && u.receipts == map[] && u.manifests == map[] && dir == Dir([], Some(0))
    ensures var m := Manifest(MANIFEST_SCHEMA, 0, config.host, 1, [Record("g", [], 0)]);
            var v := Opened(config, u, 0, ["g"], config.keepDays + 1, true);
            && v.Some? && v.value.fs == u.fs && v.value.gone == u.gone
            && 0 in v.value.manifests && v.value.manifests[0] == m
            && 0 in v.value.receipts && Verified(config, m, v.value.receipts[0]) && v.value.receipts[0].generationCount == 1
  {
    assert ["g"][0] in ["g"];
    assert Listing(u.fs, ["g"], 0);
    assert CurrentManifest(config, u.fs, ["g"], 0).records == [Record("g", [], 0)];
  }

  lemma OneDirectoryIsPruned(config: Config, fs: Fs, dir: Dir, m: Manifest, r: Receipt, h: Hazard, late: Dir)
    requires fs == Fs(map["g" := dir], map[]) && dir == Dir([], Some(0))
    requires m == Manifest(MANIFEST_SCHEMA, 0, config.host, 1, [Record("g", [], 0)]) && Verified(config, m, r) && r.generationCount == 1
    requires h == Hazard(None, false, None, false, Some(late))
    ensures var removed := PruneDate(config, fs, ["g"], m, r, config.keepDays + 1, [h], Removals(1, None)).removed;
            "g" in removed && removed["g"] == late
  {
    var expected := ByName(m.records);
    OneDirectoryIsCleared(config, fs, m, r);
    OneDirectoryIsStaged(fs, dir, expected, h, late);
    hide Cleared, Verified, ByName, Stage, Rollback;
    var s := Stage(fs, expected, ["g"], [h]);
    assert Begun(s.staged, Removals(1, None)) == ["g"] && "g" in ["g"];
    hide Removed, Begun;
  }

  lemma OneDirectoryIsCleared(config: Config, fs: Fs, m: Manifest, r: Receipt)
    requires fs == Fs(map["g" := Dir([], Some(0))], map[])
    requires m == Manifest(MANIFEST_SCHEMA, 0, config.host, 1, [Record("g", [], 0)]) && Verified(config, m, r) && r.generationCount == 1
    ensures ByName(m.records) == map["g" := Record("g", [], 0)] && Cleared(config, fs, ["g"], m, r)
  {
    hide Verified;
    var records := m.records;
    assert records[..0] == [] && ByName([]) == map[];
    assert ByName(records) == map["g" := records[0]];
    hide ByName;
  }

  lemma OneDirectoryIsStaged(fs: Fs, dir: Dir, expected: map<string, Record>, h: Hazard, late: Dir)
    requires fs == Fs(map["g" := dir], map[]) && dir.files == []
    requires expected == map["g" := Record("g", [], 0)] && h == Hazard(None, false, None, false, Some(late))
    ensures var s := Stage(fs, expected, ["g"], [h]);
            s.ok && s.staged == ["g"] && s.fs.quarantine == map["g" := late]
  {
    assert ["g"][..0] == [] && [h][..0] == [];
    assert Stage(fs, expected, [], []) == Staging(fs, [], true);
    assert Stage(fs, expected, ["g"], [h]) == StageOne(Staging(fs, [], true), [], "g", h);
  }

  // ---------------------------------------------------------------- no generation is lost

  /** No outsider writes to this generation, or delivers another of its name, during the step. */
  ghost predicate Untouched(s: Step, name: string) {
    match s
    case Arrive(n, _) => n != name
    case Write(n, _) => n != name
    case ProcessDate(_, dirs, _, _, hazards, _) => LeavesAlone(dirs, hazards, name)
    case Kill(_, dirs, _, _, hazards, _) => LeavesAlone(dirs, hazards, name)
  }

  ghost predicate LeavesAlone(dirs: seq<string>, hazards: seq<Hazard>, name: string) {
    forall i :: 0 <= i < |dirs| && i < |hazards| && dirs[i] == name ==> NoWrites(hazards[i])
  }

  /** The generation is in place or in quarantine with this content, or was removed and archived with it. */
  ghost predicate Survives(u: Uploader, name: string, dir: Dir) {
    || (name in u.fs.capture && u.fs.capture[name] == dir)
    || (name in u.fs.quarantine && u.fs.quarantine[name] == dir)
    || exists d :: d in u.gone && d.name == name && d.dir == dir && Archived(u, d)
  }

  lemma DriveGrows(config: Config, u: Uploader, s: Step, day: int)
    requires Inv(config, u) && day in u.drive
    ensures day in Next(config, u, s).drive && Next(config, u, s).drive[day] == u.drive[day]
  {
    hide PruneDate, Contains, Verified, Stage, Deletions, Listing, Vouched;
  }

  lemma GoneStaysArchived(config: Config, u: Uploader, s: Step, d: Deletion)
    requires Inv(config, u) && d in u.gone && Archived(u, d)
    ensures d in Next(config, u, s).gone && Archived(Next(config, u, s), d)
  {
    DriveGrows(config, u, s, d.day);
    hide PruneDate, Contains, Verified, Stage, Deletions, Listing, Lists;
  }

  lemma PrunedSurvives(config: Config, v: Uploader, day: int, dirs: seq<string>, today: int, hazards: seq<Hazard>,
                       removals: Removals, name: string)
    requires Inv(config, v) && day in v.receipts && day in v.manifests && |hazards| == |dirs| && Distinct(dirs)
    requires (forall i :: 0 <= i < |dirs| ==> dirs[i] in v.fs.capture) && name in v.fs.capture && LeavesAlone(dirs, hazards, name)
    ensures Survives(Pruned(config, v, day, dirs, today, hazards, removals), name, v.fs.capture[name])
  {
    var m, r := v.manifests[day], v.receipts[day];
    PruneKeepsContent(config, v.fs, dirs, m, r, today, hazards, removals, name);
    PruneAccountsForEverything(config, v.fs, dirs, m, r, today, hazards, removals);
    hide PruneDate, Deletions, Verified, Lists;
    var p := PruneDate(config, v.fs, dirs, m, r, today, hazards, removals);
    var w := Pruned(config, v, day, dirs, today, hazards, removals);
    if name !in p.fs.capture && name in p.removed {
      var k :| 0 <= k < |dirs| && dirs[k] == name;
      RemovedIsListedIff(config, v.fs, dirs, m, r, today, hazards, removals, k);
      var d := Deletion(name, p.removed[name], Seen(v.fs.capture[name], hazards[k]).files, day, today);
      DeletionsAre(v.fs, dirs, hazards, p.removed, day, today);
      assert IsDeletion(v.fs, dirs[k], hazards[k], p.removed, day, today, d);
      assert d in w.gone && Archived(w, d);
    }
  }

  lemma KilledSurvives(config: Config, v: Uploader, day: int, dirs: seq<string>, today: int, hazards: seq<Hazard>,
                       k: nat, name: string)
    requires day in v.receipts && day in v.manifests && |hazards| == |dirs| && Distinct(dirs) && k <= |dirs|
    requires name in v.fs.capture && LeavesAlone(dirs, hazards, name)
    ensures Survives(Killed(config, v, day, dirs, today, hazards, k), name, v.fs.capture[name])
  {
    var m, r := v.manifests[day], v.receipts[day];
    if m.day < today - config.keepDays && Cleared(config, v.fs, dirs, m, r) {
      var expected, front, rest := ByName(m.records), dirs[..k], hazards[..k];
      StageOnlyMoves(v.fs, expected, front, rest);
      StagingWritesNothing(v.fs, expected, front, rest, name);
      var s := Stage(v.fs, expected, front, rest);
      hide Stage, ByName, Cleared, RestKept, StagedAs, Kept;
      if name in s.staged {
        NoWritesKeep(front, rest, name, v.fs.capture[name], s.fs.quarantine[name]);
      } else {
        NoWritesKeep(front, rest, name, v.fs.capture[name], s.fs.capture[name]);
      }
    }
  }

  lemma KilledKeepsQuarantine(config: Config, v: Uploader, day: int, dirs: seq<string>, today: int, hazards: seq<Hazard>, k: nat)
    requires day in v.receipts && day in v.manifests && |hazards| == |dirs| && Distinct(dirs) && k <= |dirs|
    ensures var w := Killed(config, v, day, dirs, today, hazards, k);
            && (forall n :: n in v.fs.quarantine ==> n in w.fs.quarantine && w.fs.quarantine[n] == v.fs.quarantine[n])
            && (forall n :: n in v.fs.capture ==> n in w.fs.capture || n in w.fs.quarantine)
  {
    var m, r := v.manifests[day], v.receipts[day];
    if m.day < today - config.keepDays && Cleared(config, v.fs, dirs, m, r) {
      StageOnlyMoves(v.fs, ByName(m.records), dirs[..k], hazards[..k]);
      hide Stage, ByName, Cleared, RestKept, StagedAs;
    }
  }

  lemma QuarantineKept(config: Config, u: Uploader, s: Step, name: string)
    requires name in u.fs.quarantine && !s.Write?
    ensures name in Next(config, u, s).fs.quarantine && Next(config, u, s).fs.quarantine[name] == u.fs.quarantine[name]
  {
    hide PruneDate, Contains, Verified, Deletions, Killed, CurrentManifest;
    if (s.ProcessDate? || s.Kill?) && Opened(config, u, s.day, s.dirs, s.today, s.uploadWorks).Some? && |s.hazards| == |s.dirs| {
      var v := Opened(config, u, s.day, s.dirs, s.today, s.uploadWorks).value;
      assert v.fs == u.fs && Distinct(s.dirs);
      if config.pruneEnabled && s.day in v.receipts && s.day in v.manifests {
        hide Bundle, Listing;
        if s.ProcessDate? {
          PruneAccountsForEverything(config, v.fs, s.dirs, v.manifests[s.day], v.receipts[s.day], s.today, s.hazards, s.removals);
        } else if s.staged <= |s.dirs| {
          KilledKeepsQuarantine(config, v, s.day, s.dirs, s.today, s.hazards, s.staged);
        }
      }
    }
  }

  lemma CapturedSurvives(config: Config, u: Uploader, s: Step, name: string)
    requires Inv(config, u) && name in u.fs.capture && Untouched(s, name)
    ensures Survives(Next(config, u, s), name, u.fs.capture[name])
  {
    hide PruneDate, Contains, Verified, Deletions, Killed, CurrentManifest, Survives, Inv, Pruned;
    if (s.ProcessDate? || s.Kill?) && Opened(config, u, s.day, s.dirs, s.today, s.uploadWorks).Some? && |s.hazards| == |s.dirs| {
      BundleKeepsInv(config, u, s.dirs, s.day, s.uploadWorks);
      var v := Opened(config, u, s.day, s.dirs, s.today, s.uploadWorks).value;
      assert Distinct(s.dirs);
      if config.pruneEnabled && s.day in v.receipts && s.day in v.manifests && (s.Kill? ==> s.staged <= |s.dirs|) {
        hide Bundle;
        if s.ProcessDate? {
          PrunedSurvives(config, v, s.day, s.dirs, s.today, s.hazards, s.removals, name);
        } else {
          KilledSurvives(config, v, s.day, s.dirs, s.today, s.hazards, s.staged, name);
        }
      } else {
        InPlaceSurvives(Next(config, u, s), name);
      }
    } else {
      InPlaceSurvives(Next(config, u, s), name);
    }
  }

  lemma InPlaceSurvives(u: Uploader, name: string)
    requires name in u.fs.capture
    ensures Survives(u, name, u.fs.capture[name])
  {
  }

  lemma StepSurvives(config: Config, u: Uploader, s: Step, name: string, dir: Dir)
    requires Inv(config, u) && Survives(u, name, dir) && Untouched(s, name)
    ensures Survives(Next(config, u, s), name, dir)
  {
    hide Next, Inv, Archived, Untouched;
    if name in u.fs.capture && u.fs.capture[name] == dir {
      CapturedSurvives(config, u, s, name);
    } else if d :| d in u.gone && d.name == name && d.dir == dir && Archived(u, d) {
      GoneStaysArchived(config, u, s, d);
    } else if !s.Write? {
      QuarantineKept(config, u, s, name);
    } else {
      WriteElsewhere(config, u, s, name);
    }
  }

  lemma WriteElsewhere(config: Config, u: Uploader, s: Step, name: string)
    requires s.Write? && Untouched(s, name) && name in u.fs.quarantine
    ensures name in Next(config, u, s).fs.quarantine && Next(config, u, s).fs.quarantine[name] == u.fs.quarantine[name]
  {
  }

  /**
   A generation that nobody writes to after it arrived keeps its exact content through every history of
   runs, failures, torn removals and kills: it is in place, in quarantine, or removed and archived.
   */
  lemma {:induction false} UntouchedGenerationSurvives(config: Config, steps: seq<Step>, k: nat)
    requires k < |steps| && steps[k].Arrive? && steps[k].name !in Run(config, steps[..k]).fs.capture
    requires forall j :: k < j < |steps| ==> Untouched(steps[j], steps[k].name)
    ensures Survives(Run(config, steps), steps[k].name, steps[k].dir)
    decreases |steps|
  {
    hide Survives, Untouched, Next;
    var front, name := steps[..|steps| - 1], steps[k].name;
    if k < |front| {
      assert front[..k] == steps[..k];
      UntouchedGenerationSurvives(config, front, k);
      RunKeepsInv(config, front);
      StepSurvives(config, Run(config, front), steps[|front|], name, steps[k].dir);
    } else {
      ArrivalSurvives(config, Run(config, front), name, steps[k].dir);
    }
  }

  lemma ArrivalSurvives(config: Config, u: Uploader, name: string, dir: Dir)
    requires name !in u.fs.capture
    ensures Survives(Next(config, u, Arrive(name, dir)), name, dir)
  {
  }

  ghost predicate Known(u: Uploader, name: string) {
    name in u.fs.capture || name in u.fs.quarantine || exists d :: d in u.gone && d.name == name
  }

  lemma CapturedStaysKnown(config: Config, u: Uploader, s: Step, name: string)
    requires name in u.fs.capture
    ensures Known(Next(config, u, s), name)
  {
    hide PruneDate, Contains, Verified, Deletions, Killed, CurrentManifest;
    if (s.ProcessDate? || s.Kill?) && Opened(config, u, s.day, s.dirs, s.today, s.uploadWorks).Some? && |s.hazards| == |s.dirs| {
      var v := Opened(config, u, s.day, s.dirs, s.today, s.uploadWorks).value;
      assert v.fs == u.fs && Distinct(s.dirs);
      if config.pruneEnabled && s.day in v.receipts && s.day in v.manifests {
        hide Bundle;
        if s.ProcessDate? {
          var m, r := v.manifests[s.day], v.receipts[s.day];
          var p := PruneDate(config, v.fs, s.dirs, m, r, s.today, s.hazards, s.removals);
          PruneAccountsForEverything(config, v.fs, s.dirs, m, r, s.today, s.hazards, s.removals);
          DeletionsAre(v.fs, s.dirs, s.hazards, p.removed, s.day, s.today);
          if name in p.removed {
            var k :| 0 <= k < |s.dirs| && s.dirs[k] == name;
            var d := Deletion(name, p.removed[name], Seen(v.fs.capture[name], s.hazards[k]).files, s.day, s.today);
            assert IsDeletion(v.fs, s.dirs[k], s.hazards[k], p.removed, s.day, s.today, d);
            assert d in Next(config, u, s).gone;
          }
        } else if s.staged <= |s.dirs| {
          KilledKeepsQuarantine(config, v, s.day, s.dirs, s.today, s.hazards, s.staged);
        }
      }
    }
  }

  lemma GoneGrows(config: Config, u: Uploader, s: Step)
    ensures u.gone <= Next(config, u, s).gone
  {
    hide PruneDate, Contains, Verified, Stage, Deletions, Listing;
  }

  lemma StepAccounts(config: Config, u: Uploader, s: Step, name: string)
    requires Known(u, name)
    ensures Known(Next(config, u, s), name)
  {
    hide Next;
    GoneGrows(config, u, s);
    if name in u.fs.capture {
      CapturedStaysKnown(config, u, s, name);
    } else if d :| d in u.gone && d.name == name {
      assert d in Next(config, u, s).gone;
    } else if !s.Write? {
      QuarantineKept(config, u, s, name);
    } else {
      WriteKeepsNames(config, u, s);
    }
  }

  lemma WriteKeepsNames(config: Config, u: Uploader, s: Step)
    requires s.Write?
    ensures Next(config, u, s).fs.quarantine.Keys == u.fs.quarantine.Keys
  {
  }

  lemma ArrivalIsKnown(config: Config, u: Uploader, name: string, dir: Dir)
    ensures Known(Next(config, u, Arrive(name, dir)), name)
  {
  }

  /**
   Whoever writes to it, a generation that ever arrived is in place, in quarantine, or removed after the
   drive had a bundle listing it with the inventory its last hash saw.
   */
  lemma {:induction false} NoGenerationIsLost(config: Config, steps: seq<Step>, k: nat)
    requires k < |steps| && steps[k].Arrive?
    ensures var u, name := Run(config, steps), steps[k].name;
            || name in u.fs.capture || name in u.fs.quarantine
            || exists d :: d in u.gone && d.name == name && Vouched(config, u, d)
    decreases |steps|
  {
    hide Next, Vouched;
    EveryArrivalIsKnown(config, steps, k);
    var u, name := Run(config, steps), steps[k].name;
    if name !in u.fs.capture && name !in u.fs.quarantine {
      var d :| d in u.gone && d.name == name;
      NothingDeletedUnarchived(config, steps, d);
    }
  }

  lemma {:induction false} EveryArrivalIsKnown(config: Config, steps: seq<Step>, k: nat)
    requires k < |steps| && steps[k].Arrive?
    ensures Known(Run(config, steps), steps[k].name)
    decreases |steps|
  {
    hide Next, Known;
    var front := steps[..|steps| - 1];
    if k < |front| {
      EveryArrivalIsKnown(config, front, k);
      StepAccounts(config, Run(config, front), steps[|front|], steps[k].name);
    } else {
      ArrivalIsKnown(config, Run(config, front), steps[k].name, steps[k].dir);
    }
  }

  // ---------------------------------------------------------------- which days are bundled

  /** The manifest lists exactly the clean generations of the day, each once and with what it holds. */
  ghost predicate Bundles(config: Config, fs: Fs, m: Manifest, day: int) {
    && m.schema == "pump_fade_v3_drive_daily_manifest_v1" && m.day == day && m.host == config.host
    && m.generationCount == |m.records| > 0 && UniqueNames(m.records)
    && (forall r :: r in m.records <==>
          r.name in fs.capture && fs.capture[r.name].terminalDay == Some(day) && r.files == fs.capture[r.name].files && r.day == day)
  }

  /** The names are those of the day's clean generations, each once. */
  ghost predicate NamesDay(fs: Fs, dirs: seq<string>, day: int) {
    Distinct(dirs) && forall n :: n in dirs <==> n in fs.capture && fs.capture[n].terminalDay == Some(day)
  }

  lemma ListingNamesDay(fs: Fs, dirs: seq<string>, day: int)
    ensures Listing(fs, dirs, day) <==> NamesDay(fs, dirs, day)
  {
    if NamesDay(fs, dirs, day) {
      assert forall i :: 0 <= i < |dirs| ==> dirs[i] in dirs;
    }
  }

  /** The step is a run, finished or killed, of this day once it is over, on the day's whole listing. */
  ghost predicate RunsDay(u: Uploader, s: Step, day: int) {
    && (s.ProcessDate? || s.Kill?) && |s.hazards| == |s.dirs| && (s.Kill? ==> s.staged <= |s.dirs|)
    && s.day == day && day < s.today && s.dirs != [] && NamesDay(u.fs, s.dirs, day)
  }

  /** A day gets its bundle exactly in a run after it is over whose upload works, unless an older manifest differs. */
  lemma BundledIff(config: Config, u: Uploader, s: Step, day: int)
    requires Inv(config, u) && day !in u.drive
    ensures day in Next(config, u, s).drive <==>
            && RunsDay(u, s, day) && s.uploadWorks
            && (day in u.manifests ==> u.manifests[day] == CurrentManifest(config, u.fs, s.dirs, day))
  {
    if s.ProcessDate? || s.Kill? {
      ListingNamesDay(u.fs, s.dirs, s.day);
    }
    hide PruneDate, Contains, Verified, Stage, Deletions, Listing, Vouched, Killed, NamesDay, CurrentManifest, ReceiptFor;
  }

  lemma BundleHolds(config: Config, u: Uploader, s: Step, day: int)
    requires Inv(config, u) && day !in u.drive && day in Next(config, u, s).drive
    ensures var v := Next(config, u, s);
            day in v.receipts && Bundles(config, u.fs, v.drive[day], day) && Proves(config, v.drive[day], v.receipts[day])
  {
    BundledIff(config, u, s, day);
    ListingNamesDay(u.fs, s.dirs, day);
    CurrentRecords(config, u.fs, s.dirs, day);
    var current := CurrentManifest(config, u.fs, s.dirs, day);
    assert |current.records| == |s.dirs|;
    NewBundle(config, u, s, day);
    hide UniqueNames, NamesDay, Listing, CurrentManifest, Inv, Next;
    forall r
      ensures r in current.records <==>
          r.name in u.fs.capture && u.fs.capture[r.name].terminalDay == Some(day) && r.files == u.fs.capture[r.name].files && r.day == day
    {
      assert r.name in u.fs.capture ==> (r == Record(r.name, u.fs.capture[r.name].files, day) <==> r.files == u.fs.capture[r.name].files && r.day == day);
    }
  }

  lemma NewBundle(config: Config, u: Uploader, s: Step, day: int)
    requires Inv(config, u) && day !in u.drive && day in Next(config, u, s).drive && RunsDay(u, s, day) && Listing(u.fs, s.dirs, day)
    ensures var v := Next(config, u, s);
            var current := CurrentManifest(config, u.fs, s.dirs, day);
            v.drive[day] == current && day in v.receipts && v.receipts[day] == ReceiptFor(config, current)
  {
    hide PruneDate, Contains, Verified, Stage, Deletions, Listing, Vouched, NamesDay, CurrentManifest, ReceiptFor;
  }

  /** A bundle and its receipt, once there, are never replaced. */
  lemma BundleStays(config: Config, u: Uploader, s: Step, day: int)
    requires Inv(config, u) && day in u.drive
    ensures var v := Next(config, u, s);
            day in v.drive && v.drive[day] == u.drive[day] && day in v.receipts && day in u.receipts && v.receipts[day] == u.receipts[day]
  {
    hide PruneDate, Contains, Verified, Stage, Deletions, Listing, Vouched;
  }

  /** Step k of the history made the day's bundle, from the generations then in place. */
  ghost predicate BundledAt(config: Config, steps: seq<Step>, k: nat, day: int, m: Manifest)
    requires k < |steps|
  {
    var u := Run(config, steps[..k]);
    day !in u.drive && RunsDay(u, steps[k], day) && steps[k].uploadWorks && Bundles(config, u.fs, m, day)
  }

  /**
   Over every history: a bundle on the drive was made by a run that started after its day was over, it
   lists exactly the clean generations that day had then, and its receipt proves it in every field.
   */
  lemma {:induction false} BundlesAreOfPastDays(config: Config, steps: seq<Step>, day: int)
    requires day in Run(config, steps).drive
    ensures var u := Run(config, steps);
            && day in u.receipts && Proves(config, u.drive[day], u.receipts[day])
            && exists k :: 0 <= k < |steps| && BundledAt(config, steps, k, day, u.drive[day])
  {
    var front, s := steps[..|steps| - 1], steps[|steps| - 1];
    var u := Run(config, front);
    RunKeepsInv(config, front);
    hide Next, Inv, Proves, Bundles, RunsDay;
    if day in u.drive {
      BundleStays(config, u, s, day);
      BundlesAreOfPastDays(config, front, day);
      var k :| 0 <= k < |front| && BundledAt(config, front, k, day, u.drive[day]);
      assert front[..k] == steps[..k] && front[k] == steps[k];
      assert BundledAt(config, steps, k, day, u.drive[day]);
    } else {
      BundledIff(config, u, s, day);
      BundleHolds(config, u, s, day);
      assert BundledAt(config, steps, |front|, day, Run(config, steps).drive[day]);
    }
  }

  lemma ManifestStays(config: Config, u: Uploader, s: Step, day: int)
    requires day in u.manifests
    ensures day in Next(config, u, s).manifests && Next(config, u, s).manifests[day] == u.manifests[day]
  {
    hide PruneDate, Contains, Verified, Stage, Deletions, Listing, CurrentManifest, ReceiptFor;
  }

  lemma FailedUploadSaves(config: Config, u: Uploader, s: Step, day: int)
    requires RunsDay(u, s, day) && !s.uploadWorks && day !in u.manifests && day !in u.receipts
    ensures day in Next(config, u, s).manifests && Bundles(config, u.fs, Next(config, u, s).manifests[day], day)
  {
    ListingNamesDay(u.fs, s.dirs, day);
    CurrentRecords(config, u.fs, s.dirs, day);
    var current := CurrentManifest(config, u.fs, s.dirs, day);
    assert |current.records| == |s.dirs|;
    FailedUploadIs(config, u, s, day);
    hide UniqueNames, NamesDay, Listing, CurrentManifest, Next;
    forall r
      ensures r in current.records <==>
          r.name in u.fs.capture && u.fs.capture[r.name].terminalDay == Some(day) && r.files == u.fs.capture[r.name].files && r.day == day
    {
      assert r.name in u.fs.capture ==> (r == Record(r.name, u.fs.capture[r.name].files, day) <==> r.files == u.fs.capture[r.name].files && r.day == day);
    }
  }

  lemma FailedUploadIs(config: Config, u: Uploader, s: Step, day: int)
    requires RunsDay(u, s, day) && Listing(u.fs, s.dirs, day) && !s.uploadWorks && day !in u.manifests && day !in u.receipts
    ensures Next(config, u, s).manifests == u.manifests[day := CurrentManifest(config, u.fs, s.dirs, day)]
  {
    hide PruneDate, Contains, Verified, Stage, Deletions, Listing, NamesDay, CurrentManifest, ReceiptFor;
  }

  /**
   A failed upload leaves its manifest behind, and from then on the day's bundle, if it ever gets one, lists
   exactly the generations of that attempt: one that closes later keeps the day from being bundled.
   */
  lemma {:induction false} FailedUploadPinsDay(config: Config, steps: seq<Step>, k: nat, day: int)
    requires k < |steps|
    requires var u := Run(config, steps[..k]);
             RunsDay(u, steps[k], day) && !steps[k].uploadWorks && day !in u.manifests
    ensures var u, v := Run(config, steps[..k]), Run(config, steps);
            && day in v.manifests && Bundles(config, u.fs, v.manifests[day], day)
            && (day in v.drive ==> v.drive[day] == v.manifests[day])
    decreases |steps|
  {
    var front, s := steps[..|steps| - 1], steps[|steps| - 1];
    RunKeepsInv(config, front);
    RunKeepsInv(config, steps);
    hide Next, Bundles, RunsDay;
    if k < |front| {
      assert front[..k] == steps[..k] && front[k] == steps[k];
      FailedUploadPinsDay(config, front, k, day);
      ManifestStays(config, Run(config, front), s, day);
    } else {
      FailedUploadSaves(config, Run(config, front), s, day);
    }
  }

  /** With pruning switched off no history removes or quarantines anything. */
  lemma {:induction false} DisabledPruneMovesNothing(config: Config, steps: seq<Step>)
    requires !config.pruneEnabled
    ensures Run(config, steps).gone == [] && Run(config, steps).fs.quarantine == map[]
  {
    if steps != [] {
      DisabledPruneMovesNothing(config, steps[..|steps| - 1]);
      hide Contains, Verified, CurrentManifest, Listing, PruneDate, Killed, Pruned;
    }
  }

  // ---------------------------------------------------------------- later runs still pass

  /** The saved bundle of the day is verified and lists every clean generation of the day still in place. */
  ghost predicate Covered(config: Config, u: Uploader, day: int) {
    && day in u.receipts && day in u.manifests
    && Verified(config, u.manifests[day], u.receipts[day]) && u.manifests[day].day == day
    && UniqueNames(u.manifests[day].records)
    && forall n :: n in u.fs.capture && u.fs.capture[n].terminalDay == Some(day) ==>
         Record(n, u.fs.capture[n].files, day) in u.manifests[day].records
  }

  lemma CurrentRecords(config: Config, fs: Fs, dirs: seq<string>, day: int)
    requires Listing(fs, dirs, day)
    ensures UniqueNames(CurrentManifest(config, fs, dirs, day).records)
    ensures forall r :: r in CurrentManifest(config, fs, dirs, day).records <==>
              r.name in fs.capture && fs.capture[r.name].terminalDay == Some(day) && r == Record(r.name, fs.capture[r.name].files, day)
  {
    var records := CurrentManifest(config, fs, dirs, day).records;
    forall r: Record | r.name in fs.capture && fs.capture[r.name].terminalDay == Some(day) && r == Record(r.name, fs.capture[r.name].files, day)
      ensures r in records
    {
      var i :| 0 <= i < |dirs| && dirs[i] == r.name;
      assert records[i] == r;
    }
  }

  lemma CoveredPasses(config: Config, u: Uploader, dirs: seq<string>, day: int, uploadWorks: bool)
    requires Covered(config, u, day) && Listing(u.fs, dirs, day)
    ensures Bundle(config, u, dirs, day, uploadWorks) == Some(u)
  {
    CurrentRecords(config, u.fs, dirs, day);
    var m, current := u.manifests[day], CurrentManifest(config, u.fs, dirs, day);
    ContainsIffIncluded(m, m);
    RemovalKeepsContainment(m, m, current);
  }

  lemma PassedIsCovered(config: Config, u: Uploader, dirs: seq<string>, day: int, uploadWorks: bool)
    requires Listing(u.fs, dirs, day) && Bundle(config, u, dirs, day, uploadWorks).Some?
    requires day in Bundle(config, u, dirs, day, uploadWorks).value.receipts
    ensures Covered(config, Bundle(config, u, dirs, day, uploadWorks).value, day)
  {
    CurrentRecords(config, u.fs, dirs, day);
    var current := CurrentManifest(config, u.fs, dirs, day);
    if day in u.receipts {
      ContainsIffIncluded(u.manifests[day], current);
    }
    hide UniqueNames, Listing, Contains, CurrentManifest;
    forall n | n in u.fs.capture && u.fs.capture[n].terminalDay == Some(day)
      ensures Record(n, u.fs.capture[n].files, day) in current.records
    {
      var r := Record(n, u.fs.capture[n].files, day);
      assert r.name == n;
    }
  }

  /** A run or a kill during which no outsider writes. */
  ghost predicate Calm(s: Step) {
    (s.ProcessDate? || s.Kill?) && forall i :: 0 <= i < |s.hazards| ==> NoWrites(s.hazards[i])
  }

  lemma CalmStepShrinks(config: Config, u: Uploader, s: Step, n: string)
    requires Calm(s) && n in Next(config, u, s).fs.capture
    ensures n in u.fs.capture && u.fs.capture[n] == Next(config, u, s).fs.capture[n]
  {
    hide PruneDate, Contains, Verified, Deletions, CurrentManifest;
    if Opened(config, u, s.day, s.dirs, s.today, s.uploadWorks).Some? && |s.hazards| == |s.dirs| {
      var v := Opened(config, u, s.day, s.dirs, s.today, s.uploadWorks).value;
      assert v.fs == u.fs && Distinct(s.dirs);
      if config.pruneEnabled && s.day in v.receipts && s.day in v.manifests {
        hide Bundle, Listing;
        var m, r := v.manifests[s.day], v.receipts[s.day];
        if s.ProcessDate? {
          PruneAccountsForEverything(config, v.fs, s.dirs, m, r, s.today, s.hazards, s.removals);
          PruneKeepsContent(config, v.fs, s.dirs, m, r, s.today, s.hazards, s.removals, n);
        } else if s.staged <= |s.dirs| {
          KillShrinks(config, v, s.day, s.dirs, s.today, s.hazards, s.staged, n);
        }
      }
    }
  }

  lemma KillShrinks(config: Config, v: Uploader, day: int, dirs: seq<string>, today: int, hazards: seq<Hazard>, k: nat, n: string)
    requires day in v.receipts && day in v.manifests && |hazards| == |dirs| && Distinct(dirs) && k <= |dirs|
    requires forall i :: 0 <= i < |hazards| ==> NoWrites(hazards[i])
    requires n in Killed(config, v, day, dirs, today, hazards, k).fs.capture
    ensures n in v.fs.capture && v.fs.capture[n] == Killed(config, v, day, dirs, today, hazards, k).fs.capture[n]
  {
    var m, r := v.manifests[day], v.receipts[day];
    if m.day < today - config.keepDays && Cleared(config, v.fs, dirs, m, r) {
      StageOnlyMoves(v.fs, ByName(m.records), dirs[..k], hazards[..k]);
      hide Stage, ByName, Cleared, StagedAs;
    }
  }

  lemma CalmStepKeepsBundle(config: Config, u: Uploader, s: Step, day: int)
    requires Covered(config, u, day) && Calm(s)
    ensures var v := Next(config, u, s);
            && day in v.receipts && v.receipts[day] == u.receipts[day]
            && day in v.manifests && v.manifests[day] == u.manifests[day]
  {
    hide PruneDate, Contains, Verified, Deletions, CurrentManifest, Stage, UniqueNames;
  }

  lemma CalmStepKeepsCovered(config: Config, u: Uploader, s: Step, day: int)
    requires Covered(config, u, day) && Calm(s)
    ensures Covered(config, Next(config, u, s), day)
  {
    CalmStepKeepsBundle(config, u, s, day);
    hide Next, Verified, UniqueNames, Calm;
    var v := Next(config, u, s);
    forall n | n in v.fs.capture && v.fs.capture[n].terminalDay == Some(day)
      ensures Record(n, v.fs.capture[n].files, day) in v.manifests[day].records
    {
      CalmStepShrinks(config, u, s, n);
    }
  }

  lemma {:induction false} CalmRunsStayCovered(config: Config, steps: seq<Step>, more: seq<Step>, day: int)
    requires Covered(config, Run(config, steps), day) && forall k :: 0 <= k < |more| ==> Calm(more[k])
    ensures Covered(config, Run(config, steps + more), day)
    decreases |more|
  {
    hide Covered, Calm, Next;
    if more == [] {
      assert steps + more == steps;
    } else {
      var front, all := more[..|more| - 1], steps + more;
      CalmRunsStayCovered(config, steps, front, day);
      assert all[..|all| - 1] == steps + front && all[|all| - 1] == more[|more| - 1];
      CalmStepKeepsCovered(config, Run(config, steps + front), more[|more| - 1], day);
    }
  }

  /** The run passed the containment check, or uploaded the bundle itself, and went on to prune. */
  ghost predicate Passes(config: Config, u: Uploader, s: Step) {
    && s.ProcessDate? && |s.hazards| == |s.dirs|
    && var v := Opened(config, u, s.day, s.dirs, s.today, s.uploadWorks);
       v.Some? && s.day in v.value.receipts
  }

  lemma PassingRunCovers(config: Config, u: Uploader, s: Step)
    requires Calm(s) && Passes(config, u, s)
    ensures Covered(config, Next(config, u, s), s.day)
  {
    hide PruneDate, Contains, Verified, Deletions, CurrentManifest, Stage, UniqueNames, Calm;
    var v := Opened(config, u, s.day, s.dirs, s.today, s.uploadWorks).value;
    PassedIsCovered(config, u, s.dirs, s.day, s.uploadWorks);
    assert v.fs == u.fs;
    CoveredPasses(config, v, s.dirs, s.day, s.uploadWorks);
    hide Bundle, Listing, Pruned;
    assert Next(config, v, s) == Next(config, u, s);
    CalmStepKeepsCovered(config, v, s, s.day);
  }

  /**
   Once a run of a day passed, every later run of that day passes the containment check on whatever
   full, partial, torn or killed prunes have left of its sources, as long as no outsider writes or delivers.
   */
  lemma LaterRunsStillPass(config: Config, steps: seq<Step>, s: Step, more: seq<Step>, later: seq<string>)
    requires Passes(config, Run(config, steps), s) && Calm(s) && forall k :: 0 <= k < |more| ==> Calm(more[k])
    requires Listing(Run(config, steps + [s] + more).fs, later, s.day)
    ensures var v := Run(config, steps + [s] + more); Bundle(config, v, later, s.day, false) == Some(v)
  {
    var all := steps + [s];
    assert all[..|all| - 1] == steps && all[|all| - 1] == s;
    PassingRunCovers(config, Run(config, steps), s);
    hide Covered, Calm, Next, Listing, Passes;
    CalmRunsStayCovered(config, all, more, s.day);
    CoveredPasses(config, Run(config, all + more), later, s.day, false);
  }
}
