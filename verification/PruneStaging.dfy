/**
 The uploader's verify-then-prune: daily bundles, the containment check against the current sources,
 and pruning by staging every directory of a date into quarantine, with rollback, before any deletion.

 A directory is its file inventory and the UTC day of its clean terminal receipt, if it has one. Days
 are day numbers. A manifest digest is the manifest.
 */
module PruneStaging {
  import opened Prelude

  datatype Entry = Entry(path: string, size: nat, sha256: string)
  datatype Dir = Dir(files: seq<Entry>, terminalDay: Option<int>)
  datatype Record = Record(name: string, files: seq<Entry>, day: int)
  datatype Manifest = Manifest(schema: string, day: int, host: string, generationCount: int, records: seq<Record>)

  /** An object of the day's remote directory, by the parts of its path. */
  datatype Remote = Remote(host: string, day: int, suffix: string)

  datatype Receipt = Receipt(schema: string, day: int, host: string, verifiedOnDrive: bool, checkPassed: bool,
                             digest: Manifest, tar: Remote, manifest: Remote, receipt: Remote, generationCount: int)
  datatype Config = Config(host: string, keepDays: nat, pruneEnabled: bool)

  const MANIFEST_SCHEMA := "pump_fade_v3_drive_daily_manifest_v1"
  const RECEIPT_SCHEMA := "pump_fade_v3_drive_daily_receipt_v1"

  // ---------------------------------------------------------------- containment of the current sources

  /** Records keyed by generation; as in a Python dict a later record replaces an earlier one. */
  function ByName(records: seq<Record>): map<string, Record> {
    if records == [] then map[]
    else ByName(records[..|records| - 1])[records[|records| - 1].name := records[|records| - 1]]
  }

  predicate Contains(verified: Manifest, current: Manifest) {
    && verified.schema == current.schema && verified.day == current.day && verified.host == current.host
    && var v, c := ByName(verified.records), ByName(current.records);
       |v| == |verified.records| && |c| == |current.records| &&
       forall name :: name in c ==> name in v && v[name] == c[name]
  }

  ghost predicate UniqueNames(records: seq<Record>) {
    forall i, j :: 0 <= i < j < |records| ==> records[i].name != records[j].name
  }

  lemma {:induction false} ByNameEntries(records: seq<Record>)
    ensures forall name :: name in ByName(records) ==> ByName(records)[name].name == name && ByName(records)[name] in records
    ensures forall r :: r in records ==> r.name in ByName(records)
  {
    if records != [] {
      var front, last := records[..|records| - 1], records[|records| - 1];
      assert records == front + [last];
      ByNameEntries(front);
    }
  }

  lemma {:induction false} ByNameCounts(records: seq<Record>)
    ensures |ByName(records)| <= |records|
    ensures |ByName(records)| == |records| <==> UniqueNames(records)
  {
    if records != [] {
      var front, last := records[..|records| - 1], records[|records| - 1];
      ByNameCounts(front);
      ByNameEntries(front);
      var m := ByName(front);
      assert records == front + [last];
      UniqueNamesExtend(front, last);
      hide UniqueNames;
      assert ByName(records) == m[last.name := last];
      assert ByName(records).Keys == m.Keys + {last.name};
      if last.name in m {
        assert ByName(records).Keys == m.Keys;
        assert m[last.name] in front;
      } else {
        assert |ByName(records).Keys| == |m.Keys| + 1;
      }
    }
  }

  lemma UniqueNamesExtend(front: seq<Record>, last: Record)
    ensures UniqueNames(front + [last]) <==> UniqueNames(front) && forall r :: r in front ==> r.name != last.name
  {
    var all := front + [last];
    assert forall i :: 0 <= i < |front| ==> all[i] == front[i] && front[i] in front;
    if UniqueNames(all) {
      assert all[|front|] == last;
    }
  }

  lemma ByNameLooksUp(records: seq<Record>)
    requires UniqueNames(records)
    ensures forall r :: r in records ==> r.name in ByName(records) && ByName(records)[r.name] == r
  {
    ByNameEntries(records);
    var m := ByName(records);
    forall r | r in records
      ensures m[r.name] == r
    {
      var i :| 0 <= i < |records| && records[i] == r;
      var j :| 0 <= j < |records| && records[j] == m[r.name];
      assert records[i].name == records[j].name;
    }
  }

  /** The dictionary comparison is set inclusion of records under unique names. */
  lemma ContainsIffIncluded(verified: Manifest, current: Manifest)
    ensures Contains(verified, current) <==>
            && verified.schema == current.schema && verified.day == current.day && verified.host == current.host
            && UniqueNames(verified.records) && UniqueNames(current.records)
            && forall r :: r in current.records ==> r in verified.records
  {
    ByNameCounts(verified.records);
    ByNameCounts(current.records);
    ByNameEntries(verified.records);
    ByNameEntries(current.records);
    var v, c := ByName(verified.records), ByName(current.records);
    if UniqueNames(current.records) && UniqueNames(verified.records) {
      ByNameLooksUp(verified.records);
      ByNameLooksUp(current.records);
      if forall name :: name in c ==> name in v && v[name] == c[name] {
        forall r | r in current.records
          ensures r in verified.records
        {
          assert c[r.name] == r && v[r.name] == r;
        }
      }
      if forall r :: r in current.records ==> r in verified.records {
        forall name | name in c
          ensures name in v && v[name] == c[name]
        {
          assert c[name] in current.records;
        }
      }
    }
  }

  /** Removing generations from the sources keeps the check true for every later run. */
  lemma RemovalKeepsContainment(verified: Manifest, current: Manifest, later: Manifest)
    requires Contains(verified, current)
    requires later.schema == current.schema && later.day == current.day && later.host == current.host
    requires UniqueNames(later.records) && forall r :: r in later.records ==> r in current.records
    ensures Contains(verified, later)
  {
    ContainsIffIncluded(verified, current);
    ContainsIffIncluded(verified, later);
  }

  // ---------------------------------------------------------------- staging and rollback

  /** The capture root and the quarantine inside it, by generation name. */
  datatype Fs = Fs(capture: map<string, Dir>, quarantine: map<string, Dir>)

  /**
   What can go wrong around one directory: outside writes before its first hash, between the rename and
   the second hash, and between that hash and whatever is done to it next; and failing calls.
   */
  datatype Hazard = Hazard(before: Option<Dir>, renameFails: bool, after: Option<Dir>, readFails: bool, late: Option<Dir>)

  predicate NoWrites(h: Hazard) { h.before.None? && h.after.None? && h.late.None? }

  /** The directory as its second hash saw it, and as it was left afterwards. */
  function Seen(dir: Dir, h: Hazard): Dir { h.after.GetOr(h.before.GetOr(dir)) }
  function Left(dir: Dir, h: Hazard): Dir { h.late.GetOr(Seen(dir, h)) }

  function Written(dirs: map<string, Dir>, name: string, write: Option<Dir>): map<string, Dir> {
    if write.Some? && name in dirs then dirs[name := write.value] else dirs
  }

  function MoveOut(fs: Fs, name: string): Fs
    requires name in fs.capture
  {
    Fs(fs.capture - {name}, fs.quarantine[name := fs.capture[name]])
  }

  function MoveBack(fs: Fs, name: string): Fs
    requires name in fs.quarantine
  {
    Fs(fs.capture[name := fs.quarantine[name]], fs.quarantine - {name})
  }

  datatype Staging = Staging(fs: Fs, staged: seq<string>, ok: bool)

  function StageOne(s: Staging, files: seq<Entry>, name: string, h: Hazard): Staging {
    if name in s.fs.quarantine then s.(ok := false)
    else
      var a := s.fs.(capture := Written(s.fs.capture, name, h.before));
      if name !in a.capture || a.capture[name].files != files || h.renameFails then Staging(a, s.staged, false)
      else
        var b := MoveOut(a, name);
        var c := b.(quarantine := Written(b.quarantine, name, h.after));
        Staging(c.(quarantine := Written(c.quarantine, name, h.late)), s.staged + [name],
                !h.readFails && c.quarantine[name].files == files)
  }

  /** Stages directories in order, stopping at the first failure. */
  function Stage(fs: Fs, expected: map<string, Record>, dirs: seq<string>, hazards: seq<Hazard>): Staging
    requires |hazards| == |dirs| && forall i :: 0 <= i < |dirs| ==> dirs[i] in expected
  {
    if dirs == [] then Staging(fs, [], true)
    else
      var k := |dirs| - 1;
      var s := Stage(fs, expected, dirs[..k], hazards[..k]);
      if s.ok then StageOne(s, expected[dirs[k]].files, dirs[k], hazards[k]) else s
  }

  /** Moves staged directories back, last first. */
  function Rollback(fs: Fs, staged: seq<string>): Fs
    decreases |staged|
  {
    if staged == [] then fs
    else
      var name := staged[|staged| - 1];
      Rollback(if name in fs.quarantine && name !in fs.capture then MoveBack(fs, name) else fs, staged[..|staged| - 1])
  }

  /** Staging only moved `staged` from capture to quarantine, up to outside writes. */
  ghost predicate OnlyMoved(was: Fs, now: Fs, staged: seq<string>) {
    && Distinct(staged)
    && (forall i :: 0 <= i < |staged| ==> staged[i] in was.capture && staged[i] !in was.quarantine)
    && now.capture.Keys == was.capture.Keys - (set n | n in staged)
    && now.quarantine.Keys == was.quarantine.Keys + (set n | n in staged)
    && forall n :: n in was.quarantine ==> now.quarantine[n] == was.quarantine[n]
  }

  /** A directory not staged yet holds what it held, or what an outsider wrote before its first hash. */
  ghost predicate RestKept(was: Fs, now: Fs, dirs: seq<string>, hazards: seq<Hazard>)
    requires |hazards| == |dirs|
  {
    forall n :: n in now.capture ==>
      n in was.capture &&
      (now.capture[n] == was.capture[n] || exists i :: 0 <= i < |dirs| && dirs[i] == n && hazards[i].before == Some(now.capture[n]))
  }

  /** Staged directory i holds what its hazard leaves of it, and if all went well its second hash saw the record. */
  ghost predicate StagedAs(was: Fs, expected: map<string, Record>, s: Staging, hazards: seq<Hazard>) {
    && |s.staged| <= |hazards|
    && forall i :: 0 <= i < |s.staged| ==> StagedAt(was, expected, s, hazards[i], s.staged[i])
  }

  ghost predicate StagedAt(was: Fs, expected: map<string, Record>, s: Staging, h: Hazard, name: string) {
    && name in was.capture && name in s.fs.quarantine
    && s.fs.quarantine[name] == Left(was.capture[name], h)
    && (s.ok ==> name in expected && Seen(was.capture[name], h).files == expected[name].files)
  }

  lemma StageOneMoves(was: Fs, s: Staging, files: seq<Entry>, name: string, h: Hazard)
    requires OnlyMoved(was, s.fs, s.staged) && name !in s.staged
    ensures var t := StageOne(s, files, name, h);
            && OnlyMoved(was, t.fs, t.staged)
            && (t.staged == s.staged || t.staged == s.staged + [name])
            && (t.ok && s.ok ==> t.staged == s.staged + [name])
  {
    var t := StageOne(s, files, name, h);
    if t.staged != s.staged {
      assert (set n | n in t.staged) == (set n | n in s.staged) + {name};
    }
  }

  lemma StageOneKeepsRest(was: Fs, s: Staging, files: seq<Entry>, name: string, h: Hazard, dirs: seq<string>, hazards: seq<Hazard>)
    requires |hazards| == |dirs| && RestKept(was, s.fs, dirs, hazards) && name !in dirs
    ensures RestKept(was, StageOne(s, files, name, h).fs, dirs + [name], hazards + [h])
  {
    var t, all, hz := StageOne(s, files, name, h), dirs + [name], hazards + [h];
    forall n | n in t.fs.capture
      ensures n in was.capture
      ensures t.fs.capture[n] == was.capture[n] || exists i :: 0 <= i < |all| && all[i] == n && hz[i].before == Some(t.fs.capture[n])
    {
      assert n in s.fs.capture;
      if t.fs.capture[n] != s.fs.capture[n] {
        assert all[|dirs|] == n && hz[|dirs|].before == Some(t.fs.capture[n]);
      } else if t.fs.capture[n] != was.capture[n] {
        var i :| 0 <= i < |dirs| && dirs[i] == n && hazards[i].before == Some(s.fs.capture[n]);
        assert all[i] == n && hz[i].before == Some(t.fs.capture[n]);
      }
    }
  }

  lemma StageOneStages(was: Fs, expected: map<string, Record>, s: Staging, name: string, h: Hazard, dirs: seq<string>, hazards: seq<Hazard>)
    requires |hazards| == |dirs| && name !in dirs && name in expected && s.staged == dirs && s.ok
    requires StagedAs(was, expected, s, hazards) && RestKept(was, s.fs, dirs, hazards)
    ensures StagedAs(was, expected, StageOne(s, expected[name].files, name, h), hazards + [h])
  {
    var t, hz := StageOne(s, expected[name].files, name, h), hazards + [h];
    assert name in s.fs.capture ==> s.fs.capture[name] == was.capture[name];
    hide RestKept;
    forall i | 0 <= i < |t.staged|
      ensures StagedAt(was, expected, t, hz[i], t.staged[i])
    {
      if i < |dirs| {
        assert StagedAt(was, expected, s, hazards[i], dirs[i]);
        assert t.staged[i] == dirs[i] && dirs[i] != name;
      }
    }
  }

  lemma {:induction false} StageOnlyMoves(fs: Fs, expected: map<string, Record>, dirs: seq<string>, hazards: seq<Hazard>)
    requires |hazards| == |dirs| && Distinct(dirs) && forall i :: 0 <= i < |dirs| ==> dirs[i] in expected
    ensures var s := Stage(fs, expected, dirs, hazards);
            && OnlyMoved(fs, s.fs, s.staged) && RestKept(fs, s.fs, dirs, hazards) && StagedAs(fs, expected, s, hazards)
            && s.staged <= dirs && (s.ok ==> s.staged == dirs)
  {
    if dirs != [] {
      var k := |dirs| - 1;
      var front, rest := dirs[..k], hazards[..k];
      assert dirs == front + [dirs[k]] && dirs[k] !in front && hazards == rest + [hazards[k]];
      StageOnlyMoves(fs, expected, front, rest);
      var s := Stage(fs, expected, front, rest);
      if s.ok {
        StageOneMoves(fs, s, expected[dirs[k]].files, dirs[k], hazards[k]);
        StageOneKeepsRest(fs, s, expected[dirs[k]].files, dirs[k], hazards[k], front, rest);
        StageOneStages(fs, expected, s, dirs[k], hazards[k], front, rest);
        hide StageOne, OnlyMoved, RestKept, StagedAs, Distinct;
      } else {
        RestWidens(fs, s.fs, front, rest, dirs[k], hazards[k]);
        hide OnlyMoved, RestKept, Distinct, StagedAt;
      }
    } else {
      NothingMoved(fs, expected);
    }
  }

  lemma RestWidens(was: Fs, now: Fs, dirs: seq<string>, hazards: seq<Hazard>, name: string, h: Hazard)
    requires |hazards| == |dirs| && RestKept(was, now, dirs, hazards)
    ensures RestKept(was, now, dirs + [name], hazards + [h])
  {
    var all, hz := dirs + [name], hazards + [h];
    forall n | n in now.capture && now.capture[n] != was.capture[n]
      ensures exists i :: 0 <= i < |all| && all[i] == n && hz[i].before == Some(now.capture[n])
    {
      var i :| 0 <= i < |dirs| && dirs[i] == n && hazards[i].before == Some(now.capture[n]);
      assert all[i] == n && hz[i].before == Some(now.capture[n]);
    }
  }

  lemma NothingMoved(fs: Fs, expected: map<string, Record>)
    ensures OnlyMoved(fs, fs, []) && RestKept(fs, fs, [], []) && StagedAs(fs, expected, Staging(fs, [], true), [])
  {
  }

  lemma MoveBackUndoesOne(was: Fs, now: Fs, front: seq<string>, name: string)
    requires OnlyMoved(was, now, front + [name])
    ensures name in now.quarantine && name !in now.capture && OnlyMoved(was, MoveBack(now, name), front)
  {
    var staged := front + [name];
    assert staged[|front|] == name;
    DistinctSnoc(front, name);
    hide Distinct;
    assert forall i :: 0 <= i < |front| ==> staged[i] == front[i];
    assert (set n | n in staged) == (set n | n in front) + {name};
    assert MoveBack(now, name).quarantine.Keys == was.quarantine.Keys + (set n | n in front);
  }

  lemma DistinctSnoc(front: seq<string>, name: string)
    ensures Distinct(front + [name]) <==> Distinct(front) && name !in front
  {
    var all := front + [name];
    assert all[|front|] == name && forall i :: 0 <= i < |front| ==> all[i] == front[i];
  }

  lemma {:induction false} RollbackRestores(was: Fs, now: Fs, staged: seq<string>)
    requires OnlyMoved(was, now, staged)
    ensures var r := Rollback(now, staged);
            && r.capture.Keys == was.capture.Keys && r.quarantine == was.quarantine
            && forall n :: n in was.capture ==>
                 r.capture[n] == if n in staged then now.quarantine[n] else now.capture[n]
    decreases |staged|
  {
    if staged != [] {
      var front, name := staged[..|staged| - 1], staged[|staged| - 1];
      assert staged == front + [name];
      MoveBackUndoesOne(was, now, front, name);
      DistinctSnoc(front, name);
      assert Distinct(staged);
      hide OnlyMoved, Distinct;
      var back := MoveBack(now, name);
      RollbackRestores(was, back, front);
      var r := Rollback(now, staged);
      assert r == Rollback(back, front);
      hide Rollback;
      forall n | n in was.capture
        ensures r.capture[n] == if n in staged then now.quarantine[n] else now.capture[n]
      {
        assert n in staged <==> n in front || n == name;
      }
    } else {
      assert now.quarantine == was.quarantine;
    }
  }

  /** An outsider wrote this content to this directory during the prune. */
  ghost predicate WrittenBy(dirs: seq<string>, hazards: seq<Hazard>, name: string, dir: Dir)
    requires |hazards| == |dirs|
  {
    exists i :: 0 <= i < |dirs| && dirs[i] == name && Writes(hazards[i], dir)
  }

  predicate Writes(h: Hazard, dir: Dir) { Some(dir) in {h.before, h.after, h.late} }

  /** The directory holds what it held, or what an outsider wrote to it. */
  ghost predicate Kept(dirs: seq<string>, hazards: seq<Hazard>, name: string, was: Dir, now: Dir)
    requires |hazards| == |dirs|
  {
    now == was || WrittenBy(dirs, hazards, name, now)
  }

  lemma NoWritesKeep(dirs: seq<string>, hazards: seq<Hazard>, name: string, was: Dir, now: Dir)
    requires |hazards| == |dirs| && Kept(dirs, hazards, name, was, now)
    requires forall i :: 0 <= i < |dirs| && dirs[i] == name ==> NoWrites(hazards[i])
    ensures now == was
  {
  }

  /** Wherever a directory is after staging, it holds what it held or what an outsider wrote. */
  lemma StagingWritesNothing(fs: Fs, expected: map<string, Record>, dirs: seq<string>, hazards: seq<Hazard>, n: string)
    requires |hazards| == |dirs| && Distinct(dirs) && (forall i :: 0 <= i < |dirs| ==> dirs[i] in expected) && n in fs.capture
    ensures var s := Stage(fs, expected, dirs, hazards);
            if n in s.staged
            then n in s.fs.quarantine && n !in s.fs.capture && Kept(dirs, hazards, n, fs.capture[n], s.fs.quarantine[n])
            else n in s.fs.capture && Kept(dirs, hazards, n, fs.capture[n], s.fs.capture[n])
  {
    StageOnlyMoves(fs, expected, dirs, hazards);
    var s := Stage(fs, expected, dirs, hazards);
    hide Stage;
    if n in s.staged {
      var i :| 0 <= i < |s.staged| && s.staged[i] == n;
      assert StagedAt(fs, expected, s, hazards[i], s.staged[i]) && dirs[i] == n;
      assert s.fs.quarantine[n] == fs.capture[n] || Writes(hazards[i], s.fs.quarantine[n]);
    } else if s.fs.capture[n] != fs.capture[n] {
      var i :| 0 <= i < |dirs| && dirs[i] == n && hazards[i].before == Some(s.fs.capture[n]);
      assert Writes(hazards[i], s.fs.capture[n]);
    }
  }

  /**
   Whatever fails at whatever point of staging, rolling back puts every generation back under its own
   name and leaves the quarantine as it was; each directory holds exactly what it held, unless an
   outsider wrote to it meanwhile, and then what the outsider wrote.
   */
  lemma FailedPruneRestoresEverything(fs: Fs, expected: map<string, Record>, dirs: seq<string>, hazards: seq<Hazard>)
    requires |hazards| == |dirs| && Distinct(dirs) && forall i :: 0 <= i < |dirs| ==> dirs[i] in expected
    ensures var s := Stage(fs, expected, dirs, hazards);
            var r := Rollback(s.fs, s.staged);
            && r.capture.Keys == fs.capture.Keys
            && r.quarantine == fs.quarantine
            && (forall n :: n in fs.capture ==> Kept(dirs, hazards, n, fs.capture[n], r.capture[n]))
            && ((forall i :: 0 <= i < |hazards| ==> NoWrites(hazards[i])) ==> r == fs)
  {
    hide Stage, WrittenBy, Kept, Distinct, Rollback;
    var s := Stage(fs, expected, dirs, hazards);
    var r := Rollback(s.fs, s.staged);
    forall n | n in fs.capture
      ensures n in r.capture && Kept(dirs, hazards, n, fs.capture[n], r.capture[n])
    {
      RollbackKeeps(fs, expected, dirs, hazards, n);
    }
    RollbackRestoresNames(fs, expected, dirs, hazards);
    if forall i :: 0 <= i < |hazards| ==> NoWrites(hazards[i]) {
      forall n | n in fs.capture
        ensures r.capture[n] == fs.capture[n]
      {
        NoWritesKeep(dirs, hazards, n, fs.capture[n], r.capture[n]);
      }
      assert r.capture == fs.capture;
    }
  }

  lemma RollbackRestoresNames(fs: Fs, expected: map<string, Record>, dirs: seq<string>, hazards: seq<Hazard>)
    requires |hazards| == |dirs| && Distinct(dirs) && forall i :: 0 <= i < |dirs| ==> dirs[i] in expected
    ensures var s := Stage(fs, expected, dirs, hazards);
            var r := Rollback(s.fs, s.staged);
            r.capture.Keys == fs.capture.Keys && r.quarantine == fs.quarantine
  {
    StageOnlyMoves(fs, expected, dirs, hazards);
    var s := Stage(fs, expected, dirs, hazards);
    hide Stage, Rollback, OnlyMoved, RestKept, StagedAs;
    RollbackRestores(fs, s.fs, s.staged);
  }

  lemma RollbackKeeps(fs: Fs, expected: map<string, Record>, dirs: seq<string>, hazards: seq<Hazard>, n: string)
    requires |hazards| == |dirs| && Distinct(dirs) && (forall i :: 0 <= i < |dirs| ==> dirs[i] in expected) && n in fs.capture
    ensures var s := Stage(fs, expected, dirs, hazards);
            var r := Rollback(s.fs, s.staged);
            n in r.capture && Kept(dirs, hazards, n, fs.capture[n], r.capture[n])
  {
    StageOnlyMoves(fs, expected, dirs, hazards);
    StagingWritesNothing(fs, expected, dirs, hazards, n);
    var s := Stage(fs, expected, dirs, hazards);
    hide Stage, Rollback, OnlyMoved, RestKept, StagedAs, Kept;
    RollbackRestores(fs, s.fs, s.staged);
  }

  // ---------------------------------------------------------------- pruning one date

  /** A receipt that proves the manifest's bundle was verified on the drive. */
  predicate Verified(config: Config, m: Manifest, r: Receipt) {
    && m.schema == MANIFEST_SCHEMA && m.host == config.host && m.generationCount == |m.records|
    && r.schema == RECEIPT_SCHEMA && r.day == m.day && r.host == config.host
    && r.verifiedOnDrive && r.checkPassed && r.digest == m
    && r.tar == Remote(config.host, m.day, "tar")
    && r.manifest == Remote(config.host, m.day, "manifest.json")
    && r.receipt == Remote(config.host, m.day, "receipt.json")
  }

  predicate Prunable(fs: Fs, m: Manifest, dirs: seq<string>) {
    forall i :: 0 <= i < |dirs| ==>
      && dirs[i] in fs.capture
      && fs.capture[dirs[i]].terminalDay == Some(m.day)
      && dirs[i] in ByName(m.records)
      && ByName(m.records)[dirs[i]].files == fs.capture[dirs[i]].files
  }

  /** All the checks before staging passed. */
  predicate Cleared(config: Config, fs: Fs, dirs: seq<string>, m: Manifest, r: Receipt) {
    |ByName(m.records)| == |m.records| && Verified(config, m, r) && r.generationCount == |m.records| && Prunable(fs, m, dirs)
  }

  /** How removal ends: so many directories go completely, and a failing removal may leave a torn one. */
  datatype Removals = Removals(complete: nat, torn: Option<Dir>)

  /** `removed` holds each directory whose removal began, as it was at that moment. */
  datatype Prune = Prune(fs: Fs, removed: map<string, Dir>, ok: bool)

  function Complete(staged: seq<string>, removals: Removals): nat {
    if removals.complete < |staged| then removals.complete else |staged|
  }

  /** The directories whose removal began. */
  function Begun(staged: seq<string>, removals: Removals): seq<string> {
    var k := Complete(staged, removals);
    if k < |staged| && removals.torn.Some? then staged[..k + 1] else staged[..k]
  }

  function Removed(fs: Fs, staged: seq<string>, removals: Removals): Fs {
    var k := Complete(staged, removals);
    var left := fs.quarantine - (set n | n in staged[..k]);
    fs.(quarantine := if k < |staged| && removals.torn.Some? then left[staged[k] := removals.torn.value] else left)
  }

  function PruneDate(config: Config, fs: Fs, dirs: seq<string>, m: Manifest, r: Receipt, today: int,
                     hazards: seq<Hazard>, removals: Removals): Prune
    requires |hazards| == |dirs|
  {
    if dirs == [] || m.day >= today - config.keepDays then Prune(fs, map[], true)
    else if !Cleared(config, fs, dirs, m, r) then Prune(fs, map[], false)
    else
      var s := Stage(fs, ByName(m.records), dirs, hazards);
      if !s.ok then Prune(Rollback(s.fs, s.staged), map[], false)
      else
        var begun := Begun(s.staged, removals);
        Prune(Removed(s.fs, s.staged, removals), map n | n in begun && n in s.fs.quarantine :: s.fs.quarantine[n],
              removals.complete >= |s.staged|)
  }

  /**
   A removal begins only when its date is past retention, a verified bundle names the directory, and
   every directory of the date was staged and hashed to exactly its record. What is removed is what the
   hash saw, unless an outsider wrote to the directory after its hash.
   */
  lemma DeletedOnlyWhenVerified(config: Config, fs: Fs, dirs: seq<string>, m: Manifest, r: Receipt, today: int,
                                hazards: seq<Hazard>, removals: Removals, k: nat)
    requires |hazards| == |dirs| && Distinct(dirs) && k < |dirs|
    requires dirs[k] in PruneDate(config, fs, dirs, m, r, today, hazards, removals).removed
    ensures var p := PruneDate(config, fs, dirs, m, r, today, hazards, removals);
            && m.day < today - config.keepDays && UniqueNames(m.records)
            && m.schema == "pump_fade_v3_drive_daily_manifest_v1" && m.host == config.host && m.generationCount == |m.records|
            && r.schema == "pump_fade_v3_drive_daily_receipt_v1" && r.day == m.day && r.host == config.host
            && r.verifiedOnDrive && r.checkPassed && r.digest == m && r.generationCount == |m.records|
            && r.tar == Remote(config.host, m.day, "tar") && r.manifest == Remote(config.host, m.day, "manifest.json")
            && r.receipt == Remote(config.host, m.day, "receipt.json")
            && Stage(fs, ByName(m.records), dirs, hazards).ok
            && (forall i :: 0 <= i < |dirs| ==>
                  && dirs[i] in fs.capture && fs.capture[dirs[i]].terminalDay == Some(m.day)
                  && Record(dirs[i], Seen(fs.capture[dirs[i]], hazards[i]).files, ByName(m.records)[dirs[i]].day) in m.records)
            && p.removed[dirs[k]] == Left(fs.capture[dirs[k]], hazards[k])
  {
    hide Stage, ByName;
    StageOnlyMoves(fs, ByName(m.records), dirs, hazards);
    ByNameEntries(m.records);
    ByNameCounts(m.records);
    var s := Stage(fs, ByName(m.records), dirs, hazards);
    forall i | 0 <= i < |dirs|
      ensures Record(dirs[i], Seen(fs.capture[dirs[i]], hazards[i]).files, ByName(m.records)[dirs[i]].day) in m.records
    {
      assert StagedAt(fs, ByName(m.records), s, hazards[i], s.staged[i]);
      assert ByName(m.records)[dirs[i]] in m.records;
    }
    assert StagedAt(fs, ByName(m.records), s, hazards[k], s.staged[k]);
  }

  /** The bundle's manifest and receipt are exactly what the prune asks of them, field by field. */
  ghost predicate Proves(config: Config, m: Manifest, r: Receipt) {
    && m.schema == "pump_fade_v3_drive_daily_manifest_v1" && r.schema == "pump_fade_v3_drive_daily_receipt_v1"
    && m.host == r.host == config.host && r.day == m.day
    && r.verifiedOnDrive && r.checkPassed && r.digest == m
    && r.tar == Remote(config.host, m.day, "tar")
    && r.manifest == Remote(config.host, m.day, "manifest.json")
    && r.receipt == Remote(config.host, m.day, "receipt.json")
    && m.generationCount == r.generationCount == |m.records|
    && UniqueNames(m.records)
  }

  /** The directory is in place, closed on the bundle's day, and some record lists just what it holds. */
  ghost predicate InBundle(fs: Fs, m: Manifest, name: string) {
    name in fs.capture && fs.capture[name].terminalDay == Some(m.day) && Lists(m.records, name, fs.capture[name].files)
  }

  /** Nothing goes wrong in staging the directory: its quarantine is free and both hashes see the same inventory. */
  ghost predicate StagesCleanly(fs: Fs, name: string, h: Hazard) {
    && name in fs.capture && name !in fs.quarantine && !h.renameFails && !h.readFails
    && (h.before.Some? ==> h.before.value.files == fs.capture[name].files)
    && (h.after.Some? ==> h.after.value.files == fs.capture[name].files)
  }

  lemma ClearedIff(config: Config, fs: Fs, dirs: seq<string>, m: Manifest, r: Receipt)
    ensures Cleared(config, fs, dirs, m, r) <==> Proves(config, m, r) && forall i :: 0 <= i < |dirs| ==> InBundle(fs, m, dirs[i])
  {
    ByNameCounts(m.records);
    if UniqueNames(m.records) {
      ByNameLooksUp(m.records);
      ByNameEntries(m.records);
      var v := ByName(m.records);
      hide ByName, UniqueNames;
      forall name | name in fs.capture
        ensures Lists(m.records, name, fs.capture[name].files) <==> name in v && v[name].files == fs.capture[name].files
      {
        if name in v && v[name].files == fs.capture[name].files {
          assert v[name] in m.records;
        }
      }
      hide Lists;
    }
  }

  /** What is staged next still holds what it held before the prune. */
  lemma StageOneOkIff(was: Fs, s: Staging, files: seq<Entry>, name: string, h: Hazard, dirs: seq<string>, hazards: seq<Hazard>)
    requires |hazards| == |dirs| && s.ok && s.staged == dirs && name !in dirs
    requires OnlyMoved(was, s.fs, dirs) && RestKept(was, s.fs, dirs, hazards)
    requires name in was.capture ==> was.capture[name].files == files
    ensures StageOne(s, files, name, h).ok <==> StagesCleanly(was, name, h)
  {
    assert name in was.capture <==> name in s.fs.capture;
    assert name in was.quarantine <==> name in s.fs.quarantine;
    assert name in s.fs.capture ==> s.fs.capture[name] == was.capture[name];
  }

  ghost predicate AllStageCleanly(fs: Fs, dirs: seq<string>, hazards: seq<Hazard>)
    requires |hazards| == |dirs|
  {
    forall i :: 0 <= i < |dirs| ==> StagesCleanly(fs, dirs[i], hazards[i])
  }

  lemma AllStageSnoc(fs: Fs, dirs: seq<string>, hazards: seq<Hazard>)
    requires |hazards| == |dirs| > 0
    ensures var k := |dirs| - 1;
            AllStageCleanly(fs, dirs, hazards) <==> AllStageCleanly(fs, dirs[..k], hazards[..k]) && StagesCleanly(fs, dirs[k], hazards[k])
  {
    hide StagesCleanly;
    var k := |dirs| - 1;
    assert forall i :: 0 <= i < k ==> dirs[..k][i] == dirs[i] && hazards[..k][i] == hazards[i];
    if AllStageCleanly(fs, dirs, hazards) {
      assert forall i :: 0 <= i < k ==> StagesCleanly(fs, dirs[i], hazards[i]);
    }
  }

  lemma {:induction false} StageOkIff(fs: Fs, expected: map<string, Record>, dirs: seq<string>, hazards: seq<Hazard>)
    requires |hazards| == |dirs| && Distinct(dirs)
    requires forall i :: 0 <= i < |dirs| ==> dirs[i] in expected && (dirs[i] in fs.capture ==> expected[dirs[i]].files == fs.capture[dirs[i]].files)
    ensures Stage(fs, expected, dirs, hazards).ok <==> AllStageCleanly(fs, dirs, hazards)
  {
    if dirs != [] {
      var k := |dirs| - 1;
      var front, rest := dirs[..k], hazards[..k];
      assert dirs[k] !in front && Distinct(front);
      hide StageOne, AllStageCleanly, StagesCleanly, OnlyMoved, RestKept, StagedAs, Distinct;
      StageOkIff(fs, expected, front, rest);
      StageOnlyMoves(fs, expected, front, rest);
      AllStageSnoc(fs, dirs, hazards);
      var s := Stage(fs, expected, front, rest);
      assert Stage(fs, expected, dirs, hazards) == if s.ok then StageOne(s, expected[dirs[k]].files, dirs[k], hazards[k]) else s;
      hide Stage;
      if s.ok {
        StageOneOkIff(fs, s, expected[dirs[k]].files, dirs[k], hazards[k], front, rest);
      }
    }
  }

  /**
   The prune, refusal by refusal: it raises exactly when its day is past retention and the receipt or the
   manifest fails in some field, a directory is not what the bundle lists, staging meets a write or an
   error, or a removal fails. Short of the last it removes nothing, and before staging it moves nothing.
   */
  lemma PruneRaisesIff(config: Config, fs: Fs, dirs: seq<string>, m: Manifest, r: Receipt, today: int,
                       hazards: seq<Hazard>, removals: Removals)
    requires |hazards| == |dirs| && Distinct(dirs)
    ensures var p := PruneDate(config, fs, dirs, m, r, today, hazards, removals);
            var due := dirs != [] && m.day < today - config.keepDays;
            var proved := Proves(config, m, r) && forall i :: 0 <= i < |dirs| ==> InBundle(fs, m, dirs[i]);
            var stages := forall i :: 0 <= i < |dirs| ==> StagesCleanly(fs, dirs[i], hazards[i]);
            && (p.ok <==> !due || (proved && stages && removals.complete >= |dirs|))
            && (!due || !proved ==> p.fs == fs && p.removed == map[])
            && (!due || !proved || !stages ==> p.removed == map[])
            && (forall k :: 0 <= k < |dirs| ==> (dirs[k] in p.removed <==>
                  due && proved && stages && (k < removals.complete || (k == removals.complete && removals.torn.Some?))))
  {
    var p := PruneDate(config, fs, dirs, m, r, today, hazards, removals);
    var due := dirs != [] && m.day < today - config.keepDays;
    ClearedIff(config, fs, dirs, m, r);
    if due && Cleared(config, fs, dirs, m, r) {
      var expected := ByName(m.records);
      StageOkIff(fs, expected, dirs, hazards);
      StageOnlyMoves(fs, expected, dirs, hazards);
      var s := Stage(fs, expected, dirs, hazards);
      hide Stage, ByName, Cleared, Proves, InBundle, StagesCleanly, RestKept, StagedAs, Rollback, Removed;
      if s.ok {
        BegunAre(dirs, removals);
        assert forall k :: 0 <= k < |dirs| ==> dirs[k] in s.fs.quarantine;
      }
    } else {
      hide Stage, ByName, Cleared, Proves, InBundle, StagesCleanly;
    }
  }

  /** What quarantine holds of directory k when its removal was not completed. */
  ghost function LeftAt(fs: Fs, dirs: seq<string>, hazards: seq<Hazard>, removals: Removals, k: nat): Dir
    requires |hazards| == |dirs| && k < |dirs| && dirs[k] in fs.capture
  {
    if k == removals.complete && removals.torn.Some? then removals.torn.value else Left(fs.capture[dirs[k]], hazards[k])
  }

  /**
   What a prune that got past staging leaves: no directory of the date in place; in quarantine those whose
   removal was not completed, the one it broke off in as it was torn and the later ones as they were hashed
   or written to since; and every other directory untouched.
   */
  lemma PruneLeaves(config: Config, fs: Fs, dirs: seq<string>, m: Manifest, r: Receipt, today: int,
                    hazards: seq<Hazard>, removals: Removals)
    requires |hazards| == |dirs| && Distinct(dirs) && dirs != [] && m.day < today - config.keepDays
    requires Proves(config, m, r)
    requires forall i :: 0 <= i < |dirs| ==> InBundle(fs, m, dirs[i]) && StagesCleanly(fs, dirs[i], hazards[i])
    ensures var p := PruneDate(config, fs, dirs, m, r, today, hazards, removals);
            && p.fs.capture.Keys == fs.capture.Keys - (set n | n in dirs)
            && (forall n :: n in fs.quarantine ==> n in p.fs.quarantine && p.fs.quarantine[n] == fs.quarantine[n])
            && (forall n :: n in p.fs.quarantine ==> n in fs.quarantine || n in dirs)
            && (forall k :: 0 <= k < |dirs| ==>
                  && (dirs[k] in p.fs.quarantine <==> k >= removals.complete)
                  && (dirs[k] in p.fs.quarantine ==> dirs[k] in fs.capture && p.fs.quarantine[dirs[k]] == LeftAt(fs, dirs, hazards, removals, k)))
  {
    ClearedIff(config, fs, dirs, m, r);
    StageOkIff(fs, ByName(m.records), dirs, hazards);
    hide Proves, InBundle, Lists;
    var s := Stage(fs, ByName(m.records), dirs, hazards);
    StageOnlyMoves(fs, ByName(m.records), dirs, hazards);
    forall k | 0 <= k < |dirs|
      ensures dirs[k] in s.fs.quarantine && dirs[k] in fs.capture && s.fs.quarantine[dirs[k]] == Left(fs.capture[dirs[k]], hazards[k])
    {
      assert StagedAt(fs, ByName(m.records), s, hazards[k], s.staged[k]);
    }
    hide Stage, ByName, Cleared, RestKept, StagedAs, Rollback;
    RemovedAre(s.fs, dirs, removals);
    assert PruneDate(config, fs, dirs, m, r, today, hazards, removals).fs == Removed(s.fs, dirs, removals);
    hide Removed, PruneDate;
  }

  lemma RemovedAre(full: Fs, dirs: seq<string>, removals: Removals)
    requires Distinct(dirs) && forall k :: 0 <= k < |dirs| ==> dirs[k] in full.quarantine
    ensures var after := Removed(full, dirs, removals);
            && after.capture == full.capture
            && (forall k :: 0 <= k < |dirs| ==> (dirs[k] in after.quarantine <==> k >= removals.complete))
            && (forall k :: 0 <= k < |dirs| && k >= removals.complete ==>
                  after.quarantine[dirs[k]] == (if k == removals.complete && removals.torn.Some? then removals.torn.value else full.quarantine[dirs[k]]))
            && (forall n :: n !in dirs ==> (n in after.quarantine <==> n in full.quarantine))
            && (forall n :: n !in dirs && n in full.quarantine ==> after.quarantine[n] == full.quarantine[n])
  {
    var k := Complete(dirs, removals);
    forall j | 0 <= j < |dirs|
      ensures dirs[j] in dirs[..k] <==> j < k
    {
      if j < k {
        assert dirs[..k][j] == dirs[j];
      }
    }
  }

  lemma BegunAre(dirs: seq<string>, removals: Removals)
    requires Distinct(dirs)
    ensures forall k :: 0 <= k < |dirs| ==>
              (dirs[k] in Begun(dirs, removals) <==> k < removals.complete || (k == removals.complete && removals.torn.Some?))
  {
    var begun := Begun(dirs, removals);
    forall k | 0 <= k < |dirs|
      ensures dirs[k] in begun <==> k < |begun|
    {
      if k < |begun| {
        assert begun[k] == dirs[k];
      }
    }
  }

  /** Some record lists the generation with this inventory. */
  ghost predicate Lists(records: seq<Record>, name: string, files: seq<Entry>) {
    exists r :: r in records && r.name == name && r.files == files
  }

  lemma ListsOnlyOne(records: seq<Record>, name: string, a: seq<Entry>, b: seq<Entry>)
    requires UniqueNames(records) && Lists(records, name, a)
    ensures Lists(records, name, b) <==> a == b
  {
    var r :| r in records && r.name == name && r.files == a;
    if q :| q in records && q.name == name && q.files == b {
      var i :| 0 <= i < |records| && records[i] == r;
      var j :| 0 <= j < |records| && records[j] == q;
      assert i == j;
    }
  }

  /**
   The window between the last hash of a directory and its removal: what is removed is what the verified
   bundle lists exactly when no write fell into that window or it left the inventory as the hash saw it.
   */
  lemma RemovedIsListedIff(config: Config, fs: Fs, dirs: seq<string>, m: Manifest, r: Receipt, today: int,
                           hazards: seq<Hazard>, removals: Removals, k: nat)
    requires |hazards| == |dirs| && Distinct(dirs) && k < |dirs|
    requires dirs[k] in PruneDate(config, fs, dirs, m, r, today, hazards, removals).removed
    ensures var p := PruneDate(config, fs, dirs, m, r, today, hazards, removals);
            && Lists(m.records, dirs[k], Seen(fs.capture[dirs[k]], hazards[k]).files)
            && (Lists(m.records, dirs[k], p.removed[dirs[k]].files) <==>
                hazards[k].late.None? || hazards[k].late.value.files == Seen(fs.capture[dirs[k]], hazards[k]).files)
  {
    DeletedOnlyWhenVerified(config, fs, dirs, m, r, today, hazards, removals, k);
    var seen, p := Seen(fs.capture[dirs[k]], hazards[k]), PruneDate(config, fs, dirs, m, r, today, hazards, removals);
    hide PruneDate, UniqueNames;
    assert Lists(m.records, dirs[k], seen.files);
    ListsOnlyOne(m.records, dirs[k], seen.files, p.removed[dirs[k]].files);
  }

  /** Every generation is afterwards in place, in quarantine, or removed. */
  lemma PruneAccountsForEverything(config: Config, fs: Fs, dirs: seq<string>, m: Manifest, r: Receipt, today: int,
                                   hazards: seq<Hazard>, removals: Removals)
    requires |hazards| == |dirs| && Distinct(dirs)
    ensures var p := PruneDate(config, fs, dirs, m, r, today, hazards, removals);
            && (forall n :: n in fs.capture ==> n in p.fs.capture || n in p.fs.quarantine || n in p.removed)
            && (forall n :: n in fs.quarantine ==> n in p.fs.quarantine && p.fs.quarantine[n] == fs.quarantine[n])
            && (forall n :: n in p.removed ==> n in dirs && n in fs.capture && n !in fs.quarantine && n !in p.fs.capture)
            && (forall n :: n in p.fs.capture ==> n in fs.capture)
            && (!p.ok && p.removed == map[] && removals.complete > 0 ==>
                  p.fs.capture.Keys == fs.capture.Keys && p.fs.quarantine == fs.quarantine)
  {
    var p := PruneDate(config, fs, dirs, m, r, today, hazards, removals);
    if p.fs != fs || p.removed != map[] {
      var expected := ByName(m.records);
      StageOnlyMoves(fs, expected, dirs, hazards);
      var s := Stage(fs, expected, dirs, hazards);
      hide Stage, Verified, ByName, Prunable, RestKept, StagedAs;
      if s.ok {
        RemovalAccounts(fs, s.fs, s.staged, removals);
      } else {
        RollbackRestores(fs, s.fs, s.staged);
      }
    }
  }

  lemma RemovalAccounts(was: Fs, full: Fs, staged: seq<string>, removals: Removals)
    requires OnlyMoved(was, full, staged)
    ensures var after, begun := Removed(full, staged, removals), Begun(staged, removals);
            && (forall n :: n in was.capture ==> n in after.capture || (n in staged && n in full.quarantine && (n in begun || (n in after.quarantine && after.quarantine[n] == full.quarantine[n]))))
            && (forall n :: n in was.quarantine ==> n in after.quarantine && after.quarantine[n] == was.quarantine[n])
            && (forall n :: n in begun ==> n in staged && n in was.capture && n !in was.quarantine && n !in after.capture && n in full.quarantine)
            && after.capture == full.capture
            && (removals.complete > 0 && staged != [] ==> staged[0] in begun)
  {
    var k, begun := Complete(staged, removals), Begun(staged, removals);
    assert forall i :: 0 <= i < |begun| ==> begun[i] == staged[i];
    assert forall n :: n in begun ==> n in staged;
    assert forall n :: n in staged[..k] ==> n in begun;
    if k < |staged| && removals.torn.Some? {
      assert begun[k] == staged[k];
    }
    if removals.complete > 0 && staged != [] {
      assert begun[0] == staged[0];
    }
  }

  /** What a prune leaves of a directory nobody else writes to: it, wherever it is, or a removal of exactly it. */
  lemma PruneKeepsContent(config: Config, fs: Fs, dirs: seq<string>, m: Manifest, r: Receipt, today: int,
                          hazards: seq<Hazard>, removals: Removals, n: string)
    requires |hazards| == |dirs| && Distinct(dirs) && n in fs.capture
    requires forall i :: 0 <= i < |dirs| && dirs[i] == n ==> NoWrites(hazards[i])
    ensures var p := PruneDate(config, fs, dirs, m, r, today, hazards, removals);
            if n in p.fs.capture then p.fs.capture[n] == fs.capture[n]
            else if n in p.removed then p.removed[n] == fs.capture[n]
            else n in p.fs.quarantine && p.fs.quarantine[n] == fs.capture[n]
  {
    if dirs != [] && m.day < today - config.keepDays && Cleared(config, fs, dirs, m, r) {
      var expected := ByName(m.records);
      var s := Stage(fs, expected, dirs, hazards);
      StageOnlyMoves(fs, expected, dirs, hazards);
      StagingWritesNothing(fs, expected, dirs, hazards, n);
      RollbackKeeps(fs, expected, dirs, hazards, n);
      hide Stage, Rollback, ByName, Cleared, RestKept, StagedAs, Kept, OnlyMoved, Removed, Begun;
      if !s.ok {
        NoWritesKeep(dirs, hazards, n, fs.capture[n], Rollback(s.fs, s.staged).capture[n]);
      } else {
        RemovalAccounts(fs, s.fs, s.staged, removals);
        if n in s.staged {
          NoWritesKeep(dirs, hazards, n, fs.capture[n], s.fs.quarantine[n]);
        } else {
          NoWritesKeep(dirs, hazards, n, fs.capture[n], s.fs.capture[n]);
        }
      }
    }
  }

  // ---------------------------------------------------------------- the prune as it runs

  class PruneRunner {
    var fs: Fs

    constructor (fs: Fs)
      ensures this.fs == fs
    {
      this.fs := fs;
    }

    method MoveAllBack(staged: seq<string>)
      modifies this
      ensures fs == Rollback(old(fs), staged)
    {
      var i := |staged|;
      assert staged[..i] == staged;
      while i > 0
        invariant 0 <= i <= |staged| && Rollback(fs, staged[..i]) == Rollback(old(fs), staged)
      {
        i := i - 1;
        assert staged[..i + 1][..i] == staged[..i];
        if staged[i] in fs.quarantine && staged[i] !in fs.capture {
          fs := MoveBack(fs, staged[i]);
        }
      }
    }

    method StageAll(expected: map<string, Record>, dirs: seq<string>, hazards: seq<Hazard>)
      returns (staged: seq<string>, ok: bool)
      requires |hazards| == |dirs| && forall i :: 0 <= i < |dirs| ==> dirs[i] in expected
      modifies this
      ensures Staging(fs, staged, ok) == Stage(old(fs), expected, dirs, hazards)
    {
      staged, ok := [], true;
      var i := 0;
      while i < |dirs| && ok
        invariant 0 <= i <= |dirs|
        invariant Staging(fs, staged, ok) == Stage(old(fs), expected, dirs[..i], hazards[..i])
      {
        assert dirs[..i + 1][..i] == dirs[..i] && hazards[..i + 1][..i] == hazards[..i];
        var name, h, files := dirs[i], hazards[i], expected[dirs[i]].files;
        i := i + 1;
        if name in fs.quarantine {
          ok := false;
        } else {
          fs := fs.(capture := Written(fs.capture, name, h.before));
          if name !in fs.capture || fs.capture[name].files != files || h.renameFails {
            ok := false;
          } else {
            fs := MoveOut(fs, name);
            staged := staged + [name];
            fs := fs.(quarantine := Written(fs.quarantine, name, h.after));
            ok := !h.readFails && fs.quarantine[name].files == files;
            fs := fs.(quarantine := Written(fs.quarantine, name, h.late));
          }
        }
      }
      if !ok {
        FailureSticks(old(fs), expected, dirs, hazards, i);
      } else {
        assert dirs[..i] == dirs && hazards[..i] == hazards;
      }
    }

    /** Removes staged directories in order; the first failing removal stops it and may leave a torn directory. */
    method RemoveStaged(staged: seq<string>, removals: Removals) returns (ok: bool)
      modifies this
      ensures ok == (removals.complete >= |staged|)
      ensures fs == Removed(old(fs), staged, removals)
    {
      ghost var full := fs.quarantine;
      var k := 0;
      assert fs.quarantine == full - (set n | n in staged[..0]);
      while k < |staged| && k < removals.complete
        invariant k <= |staged| && k <= removals.complete
        invariant fs == old(fs).(quarantine := full - (set n | n in staged[..k]))
      {
        ghost var before, after := staged[..k], staged[..k + 1];
        assert after == before + [staged[k]];
        assert (set n | n in after) == (set n | n in before) + {staged[k]};
        fs := fs.(quarantine := fs.quarantine - {staged[k]});
        k := k + 1;
      }
      if k < |staged| && removals.torn.Some? {
        fs := fs.(quarantine := fs.quarantine[staged[k] := removals.torn.value]);
      }
      ok := k == |staged|;
    }

    /** The number of directories pruned; None is an exception. */
    method SafePruneDate(config: Config, dirs: seq<string>, m: Manifest, r: Receipt, today: int,
                         hazards: seq<Hazard>, removals: Removals) returns (pruned: Option<nat>)
      requires |hazards| == |dirs| && Distinct(dirs)
      modifies this
      ensures var p := PruneDate(config, old(fs), dirs, m, r, today, hazards, removals);
              fs == p.fs && pruned == if p.ok then Some(|p.removed|) else None
      ensures pruned.Some? <==>
              || dirs == [] || m.day >= today - config.keepDays
              || (Proves(config, m, r) && removals.complete >= |dirs| &&
                  forall i :: 0 <= i < |dirs| ==> InBundle(old(fs), m, dirs[i]) && StagesCleanly(old(fs), dirs[i], hazards[i]))
    {
      PruneRaisesIff(config, fs, dirs, m, r, today, hazards, removals);
      hide Proves, InBundle, StagesCleanly;
      if dirs == [] || m.day >= today - config.keepDays {
        return Some(0);
      }
      if !Cleared(config, fs, dirs, m, r) {
        return None;
      }
      var expected := ByName(m.records);
      StageOnlyMoves(fs, expected, dirs, hazards);
      hide Stage, Rollback, Verified, ByName, RestKept, StagedAs, Removed;
      var staged, complete := StageAll(expected, dirs, hazards);
      if !complete {
        MoveAllBack(staged);
        return None;
      }
      ghost var full := fs;
      var ok := RemoveStaged(staged, removals);
      if !ok {
        return None;
      }
      RemovedCount(full, staged, removals);
      pruned := Some(|staged|);
    }
  }

  lemma RemovedCount(full: Fs, staged: seq<string>, removals: Removals)
    requires Distinct(staged) && removals.complete >= |staged| && forall i :: 0 <= i < |staged| ==> staged[i] in full.quarantine
    ensures var begun := Begun(staged, removals);
            |map n | n in begun && n in full.quarantine :: full.quarantine[n]| == |staged|
  {
    var begun := Begun(staged, removals);
    assert begun == staged;
    var m := map n | n in begun && n in full.quarantine :: full.quarantine[n];
    CountDistinct(staged);
    assert m.Keys == (set n | n in staged);
    assert |m| == |m.Keys|;
  }

  lemma {:induction false} CountDistinct(s: seq<string>)
    requires Distinct(s)
    ensures |set n | n in s| == |s|
  {
    if s != [] {
      var front := s[..|s| - 1];
      CountDistinct(front);
      assert (set n | n in s) == (set n | n in front) + {s[|s| - 1]};
    }
  }

  lemma {:induction false} FailureSticks(fs: Fs, expected: map<string, Record>, dirs: seq<string>, hazards: seq<Hazard>, k: nat)
    requires |hazards| == |dirs| && k <= |dirs| && forall i :: 0 <= i < |dirs| ==> dirs[i] in expected
    requires !Stage(fs, expected, dirs[..k], hazards[..k]).ok
    ensures Stage(fs, expected, dirs, hazards) == Stage(fs, expected, dirs[..k], hazards[..k])
    decreases |dirs|
  {
    if k == |dirs| {
      assert dirs[..k] == dirs && hazards[..k] == hazards;
    } else {
      var n := |dirs| - 1;
      assert dirs[..n][..k] == dirs[..k] && hazards[..n][..k] == hazards[..k];
      FailureSticks(fs, expected, dirs[..n], hazards[..n], k);
    }
  }
}
