/** scripts/fetch_geo_data.py as written: the download loop, `fetch` with its `finally`
    block, and `main`, each proved to make exactly the calls `GeoFetch` describes. */
module GeoScript {
  import opened Wrappers
  import opened Directory
  import opened GeoFetch
  import opened GeoSafety

  datatype Date = Date(year: int, month: int, day: int)

  predicate Leap(year: int) { year % 4 == 0 && (year % 100 != 0 || year % 400 == 0) }

  function DaysIn(year: int, month: int): int {
    if month == 2 then (if Leap(year) then 29 else 28)
    else if month in {4, 6, 9, 11} then 30 else 31
  }

  predicate IsDate(d: Date) { 1 <= d.month <= 12 && 1 <= d.day <= DaysIn(d.year, d.month) }

  function DayBefore(d: Date): (r: Date)
    requires IsDate(d)
    ensures IsDate(r)
  {
    if d.day > 1 then d.(day := d.day - 1)
    else if d.month > 1 then Date(d.year, d.month - 1, DaysIn(d.year, d.month - 1))
    else Date(d.year - 1, 12, 31)
  }

  function MonthNumber(r: Release): int
    requires r.Month?
  {
    12 * r.year + r.month - 1
  }

  /** The release asked for, or this month's and then the one before it, across a year's end. */
  function CandidateMonths(explicit: Option<string>, today: Date): (rs: seq<Release>)
    requires IsDate(today)
    ensures explicit.Some? && explicit.value != "" ==> rs == [Named(explicit.value)]
    ensures explicit.None? || explicit.value == "" ==>
              && |rs| == 2 && rs[0].Month? && rs[1].Month?
              && MonthNumber(rs[0]) == 12 * today.year + today.month - 1
              && MonthNumber(rs[1]) == MonthNumber(rs[0]) - 1
              && 1 <= rs[0].month <= 12 && 1 <= rs[1].month <= 12
  {
    if explicit.Some? && explicit.value != "" then [Named(explicit.value)]
    else
      var first := today.(day := 1);
      var previous := DayBefore(first).(day := 1);
      [Month(first.year, first.month), Month(previous.year, previous.month)]
  }

  lemma ChunkTaken(chunks: seq<Chunk>, i: nat)
    requires i < |chunks|
    ensures Flatten(chunks[..i + 1]) == Flatten(chunks[..i]) + chunks[i]
  {
    FlattenOne(chunks[i]);
    FlattenConcat(chunks[..i], [chunks[i]]);
    assert chunks[..i + 1] == chunks[..i] + [chunks[i]];
  }

  lemma FlattenOne(chunk: Chunk)
    ensures Flatten([chunk]) == chunk
  {
  }

  lemma FlattenPrefix(chunks: seq<Chunk>, i: nat)
    requires i <= |chunks|
    ensures Flatten(chunks[..i]) <= Flatten(chunks)
  {
    FlattenConcat(chunks[..i], chunks[i..]);
    assert chunks == chunks[..i] + chunks[i..];
  }

  lemma AppendsFrom(chunks: seq<Chunk>, i: nat, written: nat, target: Path, log: seq<Event>)
    requires i < |chunks|
    ensures
      log + Appends(chunks[i..], written, target)
      == if written + |chunks[i]| > MAX_BYTES then log
         else (log + [Append(target, chunks[i])]) + Appends(chunks[i + 1..], written + |chunks[i]|, target)
  {
  }

  /** The file, the digest's input and the chunks accepted so far are one and the same at every
      turn of the loop, and never exceed the limit, also when the download raises. */
  method Download(disk: Disk, lib: Library, t: Transfer, target: Path) returns (sha256: Option<string>)
    requires disk.Valid()
    modifies disk
    ensures disk.Valid() && disk.log == old(disk.log) + DownloadCalls(t, target)
    ensures SameOutside(old(disk.files), disk.files, {target})
    ensures t.Stream? ==>
              target in disk.files && |disk.files[target]| <= MAX_BYTES && disk.files[target] <= Flatten(t.chunks)
    ensures sha256.Some? <==> Payload(t).Some?
    ensures sha256.Some? ==>
              sha256.value == lib.sha256(disk.files[target]) && disk.files[target] == Payload(t).value
  {
    if t.Refused? {
      return None;
    }
    disk.Do(Create(target));
    var digested: Bytes := [];
    var written := 0;
    var i := 0;
    while i < |t.chunks|
      invariant 0 <= i <= |t.chunks|
      invariant disk.Valid()
      invariant target in disk.files && digested == disk.files[target] == Flatten(t.chunks[..i])
      invariant written == |digested| <= MAX_BYTES
      invariant SameOutside(old(disk.files), disk.files, {target})
      invariant old(disk.log) + DownloadCalls(t, target) == disk.log + Appends(t.chunks[i..], written, target)
    {
      var chunk := t.chunks[i];
      ChunkTaken(t.chunks, i);
      FlattenPrefix(t.chunks, i);
      AppendsFrom(t.chunks, i, written, target, disk.log);
      written := written + |chunk|;
      if written > MAX_BYTES {
        FlattenPrefix(t.chunks, i + 1);
        return None;
      }
      digested := digested + chunk;
      disk.Do(Append(target, chunk));
      i := i + 1;
    }
    assert t.chunks[..i] == t.chunks;
    if !t.ends {
      return None;
    }
    return Some(lib.sha256(digested));
  }

  method Unlink(disk: Disk, staged: seq<Edition>)
    requires disk.Valid() && staged <= EDITIONS
    modifies disk
    ensures disk.Valid() && disk.log == old(disk.log) + UnlinkCalls(0, |staged|)
  {
    for i := 0 to |staged|
      invariant disk.Valid()
      invariant old(disk.log) + UnlinkCalls(0, |staged|) == disk.log + UnlinkCalls(i, |staged|)
    {
      disk.Do(Remove(Part(staged[i].filename)));
    }
  }

  /** Download one edition to its temporary name and check it. */
  method StageOne(disk: Disk, lib: Library, a: Attempt, i: nat) returns (downloaded: bool, info: Option<FileInfo>)
    requires disk.Valid() && i < |EDITIONS|
    modifies disk
    ensures disk.Valid() && disk.log == old(disk.log) + DownloadCalls(a.runs[i].transfer, PartOf(i))
    ensures downloaded <==> Payload(a.runs[i].transfer).Some?
    ensures info.Some? <==> Good(lib, a, i)
    ensures info.Some? ==> info.value == Info(lib, a, i)
  {
    var edition, temporary := EDITIONS[i], PartOf(i);
    var sha256 := Download(disk, lib, a.runs[i].transfer, temporary);
    if sha256.None? {
      return false, None;
    }
    var content := disk.files[temporary];
    var epoch := if a.runs[i].readable then lib.check(edition.key, content) else None;
    if epoch.None? {
      return true, None;
    }
    return true, Some(FileInfo(edition, a.release, sha256.value, |content|, epoch.value));
  }

  /** The `try` block's first loop. `staged` is what the `finally` block will unlink first. */
  method Stage(disk: Disk, lib: Library, a: Attempt)
    returns (staged: seq<Edition>, files: seq<FileInfo>, ok: bool)
    requires disk.Valid()
    modifies disk
    ensures disk.Valid() && disk.log == old(disk.log) + StageCalls(lib, a, 0)
    ensures staged <= EDITIONS && |staged| == StagedCount(lib, a, 0)
    ensures ok <==> AllGood(lib, a)
    ensures ok ==> files == ManifestOf(lib, a).files
  {
    staged, files := [], [];
    var i := 0;
    while i < |EDITIONS|
      invariant 0 <= i <= |EDITIONS|
      invariant disk.Valid()
      invariant old(disk.log) + StageCalls(lib, a, 0) == disk.log + StageCalls(lib, a, i)
      invariant staged == EDITIONS[..i] && StagedCount(lib, a, 0) == StagedCount(lib, a, i)
      invariant forall j :: 0 <= j < i ==> Good(lib, a, j)
      invariant |files| == i && forall j :: 0 <= j < i ==> files[j] == Info(lib, a, j)
    {
      ghost var log := disk.log;
      var downloaded, info := StageOne(disk, lib, a, i);
      Associate(log, DownloadCalls(a.runs[i].transfer, PartOf(i)),
                if Good(lib, a, i) then StageCalls(lib, a, i + 1) else []);
      OneMore(EDITIONS, i);
      if downloaded {
        staged := staged + [EDITIONS[i]];
      }
      if info.None? {
        assert disk.log + [] == disk.log;
        ok := false;
        return;
      }
      files := files + [info.value];
      i := i + 1;
    }
    ok := true;
  }

  method Publish(disk: Disk, lib: Library, a: Attempt) returns (ok: bool)
    requires disk.Valid() && AllGood(lib, a)
    modifies disk
    ensures disk.Valid() && disk.log == old(disk.log) + PublishCalls(lib, a)
    ensures ok <==> a.moved >= |EDITIONS|
  {
    for i := 0 to |EDITIONS|
      invariant disk.Valid() && i <= ReplacesDone(a)
      invariant old(disk.log) + PublishCalls(lib, a) == disk.log + ReplaceCalls(i, ReplacesDone(a))
    {
      if i == a.moved {
        ok := false;
        return;
      }
      disk.Do(Move(PartOf(i), LiveOf(i)));
    }
    ok := true;
  }

  method WriteManifest(disk: Disk, lib: Library, a: Attempt, manifest: ManifestText) returns (ok: bool)
    requires disk.Valid() && AllGood(lib, a) && manifest == ManifestOf(lib, a)
    modifies disk
    ensures disk.Valid() && disk.log == old(disk.log) + ManifestCalls(lib, a)
    ensures ok <==> a.manifest.Written?
  {
    if a.manifest.NotOpened? {
      return false;
    }
    disk.Do(Create(Manifest));
    disk.Do(Append(Manifest, if a.manifest.Torn? then a.manifest.bytes else lib.render(manifest)));
    return a.manifest.Written?;
  }

  lemma Regroup(l: seq<Event>, a: seq<Event>, b: seq<Event>, c: seq<Event>, d: seq<Event>, e: seq<Event>)
    ensures l + (a + b + (c + d) + e) == l + a + b + c + d + e
  {
  }

  /** Whatever state the calls of `fetch` reach from here is a true account when it succeeds. */
  lemma FetchLeaves(disk: Disk, lib: Library, a: Attempt)
    requires disk.Valid()
    ensures
      var end := Run(disk.start, disk.log + FetchCalls(lib, a));
      Succeeds(lib, a) ==>
        && Describes(lib, ManifestOf(lib, a), a.release, a.fetchedAt, end)
        && Manifest in end && end[Manifest] == lib.render(ManifestOf(lib, a))
  {
    RunConcat(disk.start, disk.log, FetchCalls(lib, a));
    if Succeeds(lib, a) {
      FetchCompletes(disk.files, lib, a);
      CompletedIsAccounted(lib, a, Run(disk.files, FetchCalls(lib, a)));
    }
  }

  /** `fetch` itself. `GeoSafety.FetchTheorem` says what these calls keep and leave. */
  method Fetch(disk: Disk, lib: Library, a: Attempt, month: Release) returns (manifest: Option<ManifestText>)
    requires disk.Valid() && month == a.release
    modifies disk
    ensures disk.Valid() && disk.log == old(disk.log) + FetchCalls(lib, a)
    ensures manifest.Some? <==> Succeeds(lib, a)
    ensures manifest.Some? ==> manifest.value == ManifestOf(lib, a)
    ensures manifest.Some? ==>
              && Describes(lib, manifest.value, month, a.fetchedAt, disk.files)
              && Manifest in disk.files && disk.files[Manifest] == lib.render(manifest.value)
  {
    if !a.mkdirOk {
      return None;
    }
    FetchLeaves(disk, lib, a);
    ghost var c1, c2, c4 := StageCalls(lib, a, 0), PublishCalls(lib, a), FinishCalls(lib, a);
    ghost var u1, u2 := UnlinkCalls(0, StagedCount(lib, a, 0)), UnlinkCalls(0, |EDITIONS|);
    Regroup(disk.log, c1, c2, u1, u2, c4);
    var staged, files, ok := Stage(disk, lib, a);
    if ok {
      ok := Publish(disk, lib, a);
    }
    assert disk.log == old(disk.log) + c1 + c2;
    Unlink(disk, staged);
    Unlink(disk, EDITIONS);
    if !ok {
      return None;
    }
    var text := ManifestText(month, a.fetchedAt, files);
    var written := WriteManifest(disk, lib, a, text);
    manifest := if written then Some(text) else None;
  }

  /** One attempt for each release `main` will try. */
  ghost predicate Plays(tries: seq<Attempt>, months: seq<Release>) {
    |tries| == |months| && forall k :: 0 <= k < |tries| ==> tries[k].release == months[k]
  }

  /** `main` over the candidate releases: the directory it leaves is the one the theorems of
      `GeoSafety` are about, and the exit status is 0 exactly when some attempt succeeds. */
  method RunMain(disk: Disk, lib: Library, explicit: Option<string>, today: Date, tries: seq<Attempt>)
    returns (code: int)
    requires disk.Valid() && IsDate(today) && Plays(tries, CandidateMonths(explicit, today))
    modifies disk
    ensures disk.Valid() && disk.log == old(disk.log) + MainCalls(lib, tries)
    ensures disk.files == Run(old(disk.files), MainCalls(lib, tries))
    ensures code == if FirstSuccess(lib, tries) < |tries| then 0 else 1
    ensures code == 0 ==>
              var k := FirstSuccess(lib, tries);
              Accounted(lib, CandidateMonths(explicit, today)[k], tries[k].fetchedAt, disk.files)
    ensures code == 0 <==> exists k :: 0 <= k < |tries| && Unhindered(lib, tries[k])
  {
    forall k | 0 <= k < |tries|
      ensures Succeeds(lib, tries[k]) <==> Unhindered(lib, tries[k])
    {
      SucceedsWhenUnhindered(lib, tries[k]);
    }
    if FirstSuccess(lib, tries) < |tries| {
      MainSucceeds(disk.files, lib, tries);
    }
    RunConcat(disk.start, disk.log, MainCalls(lib, tries));
    var months := CandidateMonths(explicit, today);
    for k := 0 to |months|
      invariant disk.Valid()
      invariant old(disk.log) + MainCalls(lib, tries) == disk.log + MainCalls(lib, tries[k..])
      invariant FirstSuccess(lib, tries) == k + FirstSuccess(lib, tries[k..])
    {
      assert tries[k..][1..] == tries[k + 1..];
      ghost var before, calls, later := disk.log, FetchCalls(lib, tries[k]), MainCalls(lib, tries[k + 1..]);
      assert MainCalls(lib, tries[k..]) == calls + (if Succeeds(lib, tries[k]) then [] else later);
      var manifest := Fetch(disk, lib, tries[k], months[k]);
      if manifest.Some? {
        AddNothing(calls);
        return 0;
      }
      Associate(before, calls, later);
    }
    code := 1;
  }
}
