/** scripts/fetch_threat_data.py: the DROP lists are staged together in a directory of their
    own, loaded as the application loads them, and only then moved into place one by one. */
module ThreatFetch {
  import opened Wrappers
  import opened Directory
  import NB = NetBlocks

  const MIN_ENTRIES: nat := 100
  const MAX_BYTES: nat := 20 * 1024 * 1024
  const FILENAMES: seq<string> := ["drop_v4.json", "drop_v6.json"]

  datatype FileWrite = NotOpened | Torn(bytes: Bytes) | Whole

  /** One file as the outside world plays it; `read(MAX_BYTES + 1)` returned `bytes`. */
  datatype FileRun = Refused | Body(bytes: Bytes, write: FileWrite)

  /** `suffix` is what `TemporaryDirectory` drew for the staging directory's name. */
  datatype RawAttempt = RawAttempt(
    mkdirOk: bool, stagingOk: bool, suffix: string, runs: seq<FileRun>, moved: nat, manifest: FileWrite)
  type Attempt = a: RawAttempt | |a.runs| == |FILENAMES|
    witness RawAttempt(false, false, "", [Refused, Refused], 0, NotOpened)

  /** What one list file says: its own date and its net-blocks in order. */
  datatype Parsed = Parsed(date: int, nets: seq<NB.Net>)

  /** JSON parsing (None for a file the loader refuses) and manifest rendering. */
  datatype Library = Library(parse: Bytes -> Option<Parsed>, render: (seq<Bytes>, nat) -> Bytes)

  // ----- the application's loader -----

  /** The net-blocks of one family over all files, in file order; None when any file is
      refused, because a half-loaded list is not used. */
  function LoadNets(lib: Library, files: seq<Bytes>): Option<seq<NB.Net>> {
    if files == [] then Some([])
    else
      match (LoadNets(lib, files[..|files| - 1]), lib.parse(files[|files| - 1]))
      case (Some(nets), Some(p)) => Some(nets + p.nets)
      case _ => None
  }

  function Family(nets: seq<NB.Net>, v4: bool): seq<NB.Net> {
    if nets == [] then [] else (if nets[0].v4 == v4 then [nets[0]] else []) + Family(nets[1..], v4)
  }

  function Table(nets: seq<NB.Net>, v4: bool): seq<NB.Row> {
    NB.FreezeRows(NB.Rows(Family(nets, v4)))
  }

  /** `ThreatList.entries`. */
  function Entries(nets: seq<NB.Net>): nat { |Table(nets, true)| + |Table(nets, false)| }

  predicate Usable(lib: Library, files: seq<Bytes>) {
    LoadNets(lib, files).Some? && Entries(LoadNets(lib, files).value) >= MIN_ENTRIES
  }

  // ----- the calls -----

  predicate Arrived(a: Attempt, i: nat)
    requires i < |FILENAMES|
  {
    a.runs[i].Body? && |a.runs[i].bytes| <= MAX_BYTES && a.runs[i].write.Whole?
  }

  function FileOf(a: Attempt, i: nat): Bytes
    requires i < |FILENAMES|
  {
    if a.runs[i].Body? then a.runs[i].bytes else []
  }

  function FilesOf(a: Attempt): seq<Bytes> { [FileOf(a, 0), FileOf(a, 1)] }

  predicate SetGood(lib: Library, a: Attempt) {
    Arrived(a, 0) && Arrived(a, 1) && Usable(lib, FilesOf(a))
  }

  function StagedOf(a: Attempt, i: nat): Path requires i < |FILENAMES| { Staged(a.suffix, FILENAMES[i]) }
  function LiveOf(i: nat): Path requires i < |FILENAMES| { Live(FILENAMES[i]) }

  function WriteCalls(p: Path, b: Bytes, w: FileWrite): seq<Event> {
    match w
    case NotOpened => []
    case Torn(part) => [Create(p), Append(p, part)]
    case Whole => [Create(p), Append(p, b)]
  }

  function FileCalls(a: Attempt, i: nat): seq<Event>
    requires i < |FILENAMES|
  {
    match a.runs[i]
    case Refused => []
    case Body(b, w) => if |b| > MAX_BYTES then [] else WriteCalls(StagedOf(a, i), b, w)
  }

  function StageCalls(a: Attempt): seq<Event> {
    FileCalls(a, 0) + if Arrived(a, 0) then FileCalls(a, 1) else []
  }

  function MoveCalls(a: Attempt, n: nat): seq<Event>
    requires n <= |FILENAMES|
  {
    if n == 0 then [] else MoveCalls(a, n - 1) + [Move(StagedOf(a, n - 1), LiveOf(n - 1))]
  }

  function MovesDone(a: Attempt): (n: nat)
    ensures n <= |FILENAMES|
  {
    if a.moved < |FILENAMES| then a.moved else |FILENAMES|
  }

  function CleanupCalls(a: Attempt): seq<Event> {
    [Remove(StagedOf(a, 0)), Remove(StagedOf(a, 1)), Remove(StagingDir(a.suffix))]
  }

  function PublishCalls(lib: Library, a: Attempt): seq<Event> {
    if SetGood(lib, a) then MoveCalls(a, MovesDone(a)) else []
  }

  function ManifestText(lib: Library, a: Attempt): Bytes
    requires SetGood(lib, a)
  {
    lib.render(FilesOf(a), Entries(LoadNets(lib, FilesOf(a)).value))
  }

  function FinishCalls(lib: Library, a: Attempt): seq<Event> {
    if SetGood(lib, a) && a.moved >= |FILENAMES|
    then WriteCalls(Manifest, ManifestText(lib, a), a.manifest) else []
  }

  function FetchCalls(lib: Library, a: Attempt): seq<Event> {
    if !a.mkdirOk || !a.stagingOk then []
    else [Create(StagingDir(a.suffix))] + StageCalls(a) + PublishCalls(lib, a) + CleanupCalls(a) + FinishCalls(lib, a)
  }

  predicate Succeeds(lib: Library, a: Attempt) {
    a.mkdirOk && a.stagingOk && SetGood(lib, a) && a.moved >= |FILENAMES| && a.manifest.Whole?
  }

  predicate Replaces(lib: Library, a: Attempt, i: nat) {
    a.mkdirOk && a.stagingOk && SetGood(lib, a) && i < a.moved
  }
}

module ThreatSafety {
  import opened Wrappers
  import opened Directory
  import opened ThreatFetch
  import NB = NetBlocks

  function Scratch(a: Attempt): set<Path> { {StagedOf(a, 0), StagedOf(a, 1), StagingDir(a.suffix)} }
  function Owned(a: Attempt): set<Path> { Scratch(a) + {LiveOf(0), LiveOf(1), Manifest} }

  lemma Names(a: Attempt)
    ensures StagedOf(a, 0) != StagedOf(a, 1) && LiveOf(0) != LiveOf(1)
  {
  }

  /** Each live list holds what it held before, or the staged file of a set that was loaded and
      found usable; nothing outside the script's own names has changed. */
  ghost predicate Step(fs: Files, lib: Library, a: Attempt, st: Files) {
    && (forall i :: 0 <= i < |FILENAMES| ==>
          Same(fs, st, LiveOf(i)) || (SetGood(lib, a) && LiveOf(i) in st && st[LiveOf(i)] == FileOf(a, i)))
    && SameOutside(fs, st, Owned(a))
  }

  ghost predicate StepsSafe(fs: Files, lib: Library, a: Attempt, st: Files, calls: seq<Event>) {
    Always(st, calls, s => Step(fs, lib, a, s))
  }

  lemma StepsSafeConcat(fs: Files, lib: Library, a: Attempt, st: Files, c: seq<Event>, d: seq<Event>)
    requires StepsSafe(fs, lib, a, st, c) && StepsSafe(fs, lib, a, Run(st, c), d)
    ensures StepsSafe(fs, lib, a, st, c + d)
    ensures Run(st, c + d) == Run(Run(st, c), d)
  {
    AlwaysConcat(st, c, d, s => Step(fs, lib, a, s));
    RunConcat(st, c, d);
  }

  /** Calls on scratch names, or on the manifest, are safe. */
  lemma AsideSafe(fs: Files, lib: Library, a: Attempt, st: Files, calls: seq<Event>, ps: set<Path>)
    requires Step(fs, lib, a, st) && (ps == Scratch(a) || ps == {Manifest})
    requires forall e :: e in calls ==> Touches(e) <= ps
    ensures StepsSafe(fs, lib, a, st, calls)
    ensures SameOutside(st, Run(st, calls), ps) && Step(fs, lib, a, Run(st, calls))
  {
    Confined(st, calls, ps);
    forall s | SameOutside(st, s, ps)
      ensures Step(fs, lib, a, s)
    {
      assert forall i :: 0 <= i < |FILENAMES| ==> Same(st, s, LiveOf(i));
      forall p | p !in Owned(a)
        ensures Same(fs, s, p)
      {
        assert Same(fs, st, p) && Same(st, s, p);
      }
    }
    AlwaysWeaken(st, calls, s => SameOutside(st, s, ps), s => Step(fs, lib, a, s));
    AlwaysEnd(st, calls, s => Step(fs, lib, a, s));
  }

  lemma WriteWhole(fs: Files, p: Path, b: Bytes, w: FileWrite)
    ensures
      var end := Run(fs, WriteCalls(p, b, w));
      && SameOutside(fs, end, {p})
      && (w.NotOpened? ==> end == fs)
      && (!w.NotOpened? ==> p in end && end[p] == if w.Whole? then b else w.bytes)
    ensures forall e :: e in WriteCalls(p, b, w) ==> Touches(e) == {p}
  {
    if !w.NotOpened? {
      var text := if w.Whole? then b else w.bytes;
      var calls := WriteCalls(p, b, w);
      var mid := Apply(fs, Create(p));
      assert calls[1..] == [Append(p, text)] && calls[1..][1..] == [];
      assert Run(fs, calls) == Run(mid, calls[1..]) == Apply(mid, Append(p, text));
      assert mid[p] + text == text;
    }
  }

  lemma StageLeaves(fs: Files, a: Attempt)
    ensures forall e :: e in StageCalls(a) ==> Touches(e) <= Scratch(a)
    ensures Arrived(a, 0) && Arrived(a, 1) ==>
              var end := Run(fs, StageCalls(a));
              forall i :: 0 <= i < |FILENAMES| ==> StagedOf(a, i) in end && end[StagedOf(a, i)] == FileOf(a, i)
  {
    Names(a);
    forall i | 0 <= i < |FILENAMES|
      ensures forall e :: e in FileCalls(a, i) ==> Touches(e) <= Scratch(a)
    {
      if a.runs[i].Body? {
        WriteWhole(fs, StagedOf(a, i), a.runs[i].bytes, a.runs[i].write);
      }
    }
    if Arrived(a, 0) && Arrived(a, 1) {
      var mid := Run(fs, FileCalls(a, 0));
      WriteWhole(fs, StagedOf(a, 0), a.runs[0].bytes, a.runs[0].write);
      WriteWhole(mid, StagedOf(a, 1), a.runs[1].bytes, a.runs[1].write);
      RunConcat(fs, FileCalls(a, 0), FileCalls(a, 1));
      assert Same(mid, Run(mid, FileCalls(a, 1)), StagedOf(a, 0));
    }
  }

  lemma MoveSafe(fs: Files, lib: Library, a: Attempt, mid: Files, i: nat)
    requires i < |FILENAMES| && SetGood(lib, a) && Step(fs, lib, a, mid)
    requires StagedOf(a, i) in mid && mid[StagedOf(a, i)] == FileOf(a, i)
    ensures
      var last := Move(StagedOf(a, i), LiveOf(i));
      Run(mid, [last]) == Apply(mid, last) && Step(fs, lib, a, Apply(mid, last)) && StepsSafe(fs, lib, a, mid, [last])
  {
    Names(a);
    var last := Move(StagedOf(a, i), LiveOf(i));
    var end := Apply(mid, last);
    assert [last][1..] == [];
    assert Run(mid, [last]) == end;
    forall p | p !in Owned(a)
      ensures Same(fs, end, p)
    {
      assert Same(fs, mid, p) && Same(mid, end, p);
    }
    assert Step(fs, lib, a, end);
  }

  lemma {:induction false} MovesSafe(fs: Files, lib: Library, a: Attempt, st: Files, n: nat)
    requires n <= |FILENAMES| && SetGood(lib, a) && Step(fs, lib, a, st)
    requires forall i :: 0 <= i < |FILENAMES| ==> StagedOf(a, i) in st && st[StagedOf(a, i)] == FileOf(a, i)
    ensures StepsSafe(fs, lib, a, st, MoveCalls(a, n))
    ensures
      var end := Run(st, MoveCalls(a, n));
      Step(fs, lib, a, end) && Moved(a, st, end, n)
    decreases n
  {
    if n > 0 {
      MovesSafe(fs, lib, a, st, n - 1);
      var mid := Run(st, MoveCalls(a, n - 1));
      var last := Move(StagedOf(a, n - 1), LiveOf(n - 1));
      assert Same(st, mid, StagedOf(a, n - 1));
      MoveSafe(fs, lib, a, mid, n - 1);
      StepsSafeConcat(fs, lib, a, st, MoveCalls(a, n - 1), [last]);
      OneMoreMoved(a, st, mid, n - 1);
    }
  }

  /** The first `n` live lists are the staged ones, and the rest has not moved. */
  ghost predicate Moved(a: Attempt, st: Files, end: Files, n: nat) {
    && Same(st, end, Manifest)
    && forall i :: 0 <= i < |FILENAMES| ==>
         if i < n then LiveOf(i) in end && end[LiveOf(i)] == FileOf(a, i)
         else Same(st, end, LiveOf(i)) && Same(st, end, StagedOf(a, i))
  }

  lemma OneMoreMoved(a: Attempt, st: Files, mid: Files, n: nat)
    requires n < |FILENAMES| && Moved(a, st, mid, n) && StagedOf(a, n) in st && st[StagedOf(a, n)] == FileOf(a, n)
    ensures Moved(a, st, Apply(mid, Move(StagedOf(a, n), LiveOf(n))), n + 1)
  {
    Names(a);
    assert Same(st, mid, StagedOf(a, n));
  }

  lemma CleanupRemoves(fs: Files, a: Attempt)
    ensures forall p :: p in Scratch(a) ==> p !in Run(fs, CleanupCalls(a))
    ensures forall e :: e in CleanupCalls(a) ==> Touches(e) <= Scratch(a)
    ensures SameOutside(fs, Run(fs, CleanupCalls(a)), Scratch(a))
  {
    var calls := CleanupCalls(a);
    assert calls[1..] == [calls[1], calls[2]] && calls[1..][1..] == [calls[2]] && calls[1..][1..][1..] == [];
    var one := Apply(fs, calls[0]);
    var two := Apply(one, calls[1]);
    assert Run(fs, calls) == Run(one, calls[1..]) == Run(two, calls[1..][1..]) == Apply(two, calls[2]);
  }

  /** What `fetch` leaves on every exit: no staging directory, and exactly the first `moved`
      lists replaced when the whole set was usable. */
  ghost predicate FetchResult(fs: Files, lib: Library, a: Attempt, end: Files) {
    && (forall i :: 0 <= i < |FILENAMES| ==>
          if Replaces(lib, a, i) then LiveOf(i) in end && end[LiveOf(i)] == FileOf(a, i) else Same(fs, end, LiveOf(i)))
    && (a.mkdirOk && a.stagingOk ==> forall p :: p in Scratch(a) ==> p !in end)
    && (if Replaces(lib, a, |FILENAMES| - 1) && !a.manifest.NotOpened?
        then Manifest in end && end[Manifest] == if a.manifest.Torn? then a.manifest.bytes else ManifestText(lib, a)
        else Same(fs, end, Manifest))
    && SameOutside(fs, end, Owned(a))
  }

  lemma StagedState(fs: Files, lib: Library, a: Attempt)
    ensures
      var calls := [Create(StagingDir(a.suffix))] + StageCalls(a);
      var st := Run(fs, calls);
      && StepsSafe(fs, lib, a, fs, calls) && Step(fs, lib, a, st) && SameOutside(fs, st, Scratch(a))
      && (SetGood(lib, a) ==>
            forall i :: 0 <= i < |FILENAMES| ==> StagedOf(a, i) in st && st[StagedOf(a, i)] == FileOf(a, i))
  {
    var open := [Create(StagingDir(a.suffix))];
    StageLeaves(Run(fs, open), a);
    RunConcat(fs, open, StageCalls(a));
    AsideSafe(fs, lib, a, fs, open + StageCalls(a), Scratch(a));
  }

  lemma PublishState(fs: Files, lib: Library, a: Attempt, st: Files)
    requires st == Run(fs, [Create(StagingDir(a.suffix))] + StageCalls(a))
    ensures StepsSafe(fs, lib, a, st, PublishCalls(lib, a))
    ensures
      var end := Run(st, PublishCalls(lib, a));
      && Step(fs, lib, a, end)
      && (forall i :: 0 <= i < |FILENAMES| ==>
            if SetGood(lib, a) && i < a.moved then LiveOf(i) in end && end[LiveOf(i)] == FileOf(a, i)
            else Same(fs, end, LiveOf(i)))
      && Same(fs, end, Manifest)
  {
    StagedState(fs, lib, a);
    assert forall i :: 0 <= i < |FILENAMES| ==> Same(fs, st, LiveOf(i));
    assert Same(fs, st, Manifest);
    if SetGood(lib, a) {
      MovesSafe(fs, lib, a, st, MovesDone(a));
    }
  }

  /** Staging and publishing, call by call, and the state they leave. */
  lemma HeadSafe(fs: Files, lib: Library, a: Attempt)
    ensures
      var head := [Create(StagingDir(a.suffix))] + StageCalls(a) + PublishCalls(lib, a);
      var mid := Run(fs, head);
      && StepsSafe(fs, lib, a, fs, head) && Step(fs, lib, a, mid) && Same(fs, mid, Manifest)
      && (forall i :: 0 <= i < |FILENAMES| ==>
            if SetGood(lib, a) && i < a.moved then LiveOf(i) in mid && mid[LiveOf(i)] == FileOf(a, i)
            else Same(fs, mid, LiveOf(i)))
  {
    var c1 := [Create(StagingDir(a.suffix))] + StageCalls(a);
    StagedState(fs, lib, a);
    PublishState(fs, lib, a, Run(fs, c1));
    StepsSafeConcat(fs, lib, a, fs, c1, PublishCalls(lib, a));
  }

  /** Leaving the staging directory and writing the manifest. */
  lemma TailSafe(fs: Files, lib: Library, a: Attempt, mid: Files)
    requires Step(fs, lib, a, mid)
    ensures StepsSafe(fs, lib, a, mid, CleanupCalls(a) + FinishCalls(lib, a))
    ensures
      var end := Run(mid, CleanupCalls(a) + FinishCalls(lib, a));
      && Step(fs, lib, a, end) && (forall p :: p in Scratch(a) ==> p !in end)
      && (forall i :: 0 <= i < |FILENAMES| ==> Same(mid, end, LiveOf(i)))
      && (if SetGood(lib, a) && a.moved >= |FILENAMES| && !a.manifest.NotOpened?
          then Manifest in end && end[Manifest] == if a.manifest.Torn? then a.manifest.bytes else ManifestText(lib, a)
          else Same(mid, end, Manifest))
  {
    CleanupRemoves(mid, a);
    AsideSafe(fs, lib, a, mid, CleanupCalls(a), Scratch(a));
    var clean := Run(mid, CleanupCalls(a));
    FinishLeaves(clean, lib, a);
    AsideSafe(fs, lib, a, clean, FinishCalls(lib, a), {Manifest});
    StepsSafeConcat(fs, lib, a, mid, CleanupCalls(a), FinishCalls(lib, a));
    var end := Run(clean, FinishCalls(lib, a));
    forall i | 0 <= i < |FILENAMES|
      ensures Same(mid, end, LiveOf(i))
    {
      assert Same(mid, clean, LiveOf(i)) && Same(clean, end, LiveOf(i));
    }
    assert forall p :: p in Scratch(a) ==> Same(clean, end, p);
    assert Same(mid, clean, Manifest);
  }

  /** Every call of `fetch` is safe, and `FetchResult` is what it leaves. */
  lemma FetchTheorem(fs: Files, lib: Library, a: Attempt)
    ensures StepsSafe(fs, lib, a, fs, FetchCalls(lib, a))
    ensures FetchResult(fs, lib, a, Run(fs, FetchCalls(lib, a)))
  {
    if a.mkdirOk && a.stagingOk {
      var head := [Create(StagingDir(a.suffix))] + StageCalls(a) + PublishCalls(lib, a);
      HeadSafe(fs, lib, a);
      TailSafe(fs, lib, a, Run(fs, head));
      StepsSafeConcat(fs, lib, a, fs, head, CleanupCalls(a) + FinishCalls(lib, a));
      Associate(head, CleanupCalls(a), FinishCalls(lib, a));
    }
  }

  /** A crashed run's staging directory has another suffix, and a later run leaves it there. */
  lemma LeftoversStay(fs: Files, lib: Library, a: Attempt, suffix: string, name: string)
    requires suffix != a.suffix
    ensures
      var end := Run(fs, FetchCalls(lib, a));
      Same(fs, end, StagingDir(suffix)) && Same(fs, end, Staged(suffix, name))
  {
    FetchTheorem(fs, lib, a);
  }

  lemma FinishLeaves(fs: Files, lib: Library, a: Attempt)
    ensures forall e :: e in FinishCalls(lib, a) ==> Touches(e) <= {Manifest}
    ensures SameOutside(fs, Run(fs, FinishCalls(lib, a)), {Manifest})
    ensures
      var end := Run(fs, FinishCalls(lib, a));
      if SetGood(lib, a) && a.moved >= |FILENAMES| && !a.manifest.NotOpened?
      then Manifest in end && end[Manifest] == if a.manifest.Torn? then a.manifest.bytes else ManifestText(lib, a)
      else end == fs
  {
    if SetGood(lib, a) && a.moved >= |FILENAMES| {
      WriteWhole(fs, Manifest, ManifestText(lib, a), a.manifest);
    }
  }

  lemma SafeAtEveryCrash(fs: Files, lib: Library, a: Attempt, k: nat)
    requires k <= |FetchCalls(lib, a)|
    ensures Step(fs, lib, a, Run(fs, FetchCalls(lib, a)[..k]))
  {
    FetchTheorem(fs, lib, a);
    AlwaysAtEveryPrefix(fs, FetchCalls(lib, a), s => Step(fs, lib, a, s));
  }

  /** A raising `fetch` leaves every file but its own temporary ones alone, whatever they were,
      exactly when it did not get past its first `os.replace`. */
  lemma FailureUntouchedExactlyWhen(lib: Library, a: Attempt)
    requires !Succeeds(lib, a)
    ensures (forall fs :: SameOutside(fs, Run(fs, FetchCalls(lib, a)), Scratch(a))) <==> !Replaces(lib, a, 0)
  {
    if Replaces(lib, a, 0) {
      var empty: Files := map[];
      FetchTheorem(empty, lib, a);
      assert !Same(empty, Run(empty, FetchCalls(lib, a)), LiveOf(0));
      assert !SameOutside(empty, Run(empty, FetchCalls(lib, a)), Scratch(a));
    } else {
      forall fs: Files
        ensures SameOutside(fs, Run(fs, FetchCalls(lib, a)), Scratch(a))
      {
        FetchTheorem(fs, lib, a);
        assert !Replaces(lib, a, 1);
      }
    }
  }

  /** `n` separate addresses, as net-blocks in order. */
  function Hosts(n: nat): (nets: seq<NB.Net>)
    ensures |nets| == n && forall i :: 0 <= i < n ==> nets[i] == NB.Net(true, i, 0, "")
  {
    if n == 0 then [] else Hosts(n - 1) + [NB.Net(true, n - 1, 0, "")]
  }

  /** The failing family has a member: a usable set arrives, the second `os.replace` raises, and
      the new IPv4 list is left beside the old IPv6 list and the old manifest. */
  lemma MixedListsAfterFailure() returns (fs: Files, lib: Library, a: Attempt)
    ensures !Succeeds(lib, a) && SetGood(lib, a)
    ensures
      var end := Run(fs, FetchCalls(lib, a));
      && LiveOf(0) in fs && LiveOf(1) in fs && LiveOf(0) in end && LiveOf(1) in end
      && end[LiveOf(0)] == FileOf(a, 0) != fs[LiveOf(0)]
      && end[LiveOf(1)] == fs[LiveOf(1)] != FileOf(a, 1)
      && Manifest in fs && Same(fs, end, Manifest)
  {
    lib, a := HostsLibrary(MIN_ENTRIES), HostsAttempt();
    HostsGood(MIN_ENTRIES);
    fs := map[LiveOf(0) := [1], LiveOf(1) := [2], Manifest := [3]];
    Names(a);
    StopsAfterFirst(fs, lib, a);
  }

  const SixNet := NB.Net(false, 0, 0, "")

  function HostsLibrary(n: nat): Library {
    Library(b => Some(Parsed(0, if b == [4] then Hosts(n) else [SixNet])), (bs, k) => [])
  }

  function HostsAttempt(): Attempt { RawAttempt(true, true, "x", [Body([4], Whole), Body([6], Whole)], 1, Whole) }

  lemma HostsGood(n: nat)
    requires n >= MIN_ENTRIES
    ensures SetGood(HostsLibrary(n), HostsAttempt()) && !Succeeds(HostsLibrary(n), HostsAttempt())
  {
    HostsUsable(HostsLibrary(n), HostsAttempt(), n);
  }

  /** What any attempt leaves whose set is usable and whose second replace raises. */
  lemma StopsAfterFirst(fs: Files, lib: Library, a: Attempt)
    requires SetGood(lib, a) && a.mkdirOk && a.stagingOk && a.moved == 1
    ensures
      var end := Run(fs, FetchCalls(lib, a));
      LiveOf(0) in end && end[LiveOf(0)] == FileOf(a, 0) && Same(fs, end, LiveOf(1)) && Same(fs, end, Manifest)
  {
    FetchTheorem(fs, lib, a);
  }

  lemma HostsUsable(lib: Library, a: Attempt, n: nat)
    requires FilesOf(a) == [[4], [6]] && n >= MIN_ENTRIES
    requires lib.parse([4]) == Some(Parsed(0, Hosts(n))) && lib.parse([6]) == Some(Parsed(0, [SixNet]))
    ensures Usable(lib, FilesOf(a))
  {
    TwoFilesLoad(lib, [4], [6], Hosts(n), [SixNet]);
    HostsFamily(n);
    HostsKept(n);
  }

  lemma TwoFilesLoad(lib: Library, a: Bytes, b: Bytes, x: seq<NB.Net>, y: seq<NB.Net>)
    requires lib.parse(a) == Some(Parsed(0, x)) && lib.parse(b) == Some(Parsed(0, y))
    ensures LoadNets(lib, [a, b]) == Some(x + y)
  {
    var files := [a, b];
    assert files[..1] == [a] && files[..1][..0] == [];
    AddNothing(x);
    assert LoadNets(lib, files[..1]) == Some(x);
  }

  lemma HostsFamily(n: nat)
    ensures Family(Hosts(n) + [SixNet], true) == Family(Hosts(n), true)
  {
    FamilyConcat(Hosts(n), [SixNet], true);
    assert [SixNet][1..] == [];
    assert Family([SixNet], true) == [];
    AddNothing(Family(Hosts(n), true));
  }

  lemma {:induction false} FamilyConcat(a: seq<NB.Net>, b: seq<NB.Net>, v4: bool)
    ensures Family(a + b, v4) == Family(a, v4) + Family(b, v4)
    decreases a
  {
    if a == [] {
      AddNothing(b);
      AddNothing(Family(b, v4));
    } else {
      FirstApart(a, b);
      FamilyConcat(a[1..], b, v4);
      Associate(if a[0].v4 == v4 then [a[0]] else [], Family(a[1..], v4), Family(b, v4));
    }
  }

  lemma HostsKept(n: nat)
    ensures |Table(Hosts(n), true)| == n
  {
    FamilyAll(Hosts(n));
    var rows := NB.Rows(Hosts(n));
    forall i | 0 <= i < n
      ensures rows[i].first == rows[i].last == i
    {
      assert rows[i] == NB.RowOf(NB.Net(true, i, 0, ""));
    }
    NB.DisjointListIsKept(rows);
  }

  lemma {:induction false} FamilyAll(nets: seq<NB.Net>)
    requires forall i :: 0 <= i < |nets| ==> nets[i].v4
    ensures Family(nets, true) == nets
    decreases nets
  {
    if nets != [] {
      FamilyAll(nets[1..]);
    }
  }

  // ----- what a published list answers -----

  lemma {:induction false} FamilyMembers(nets: seq<NB.Net>, v4: bool, n: NB.Net)
    ensures n in Family(nets, v4) <==> n in nets && n.v4 == v4
    decreases nets
  {
    if nets != [] {
      FamilyMembers(nets[1..], v4, n);
      assert n in nets <==> n == nets[0] || n in nets[1..];
    }
  }

  ghost predicate Listed(nets: seq<NB.Net>, v4: bool, address: int) {
    exists n :: n in nets && n.v4 == v4 && NB.Inside(address, NB.RowOf(n))
  }

  /** `nets` are the net-blocks of the parsed files, file after file. */
  ghost predicate Concatenation(lib: Library, files: seq<Bytes>, nets: seq<NB.Net>)
    decreases |files|
  {
    if files == [] then nets == []
    else exists rest ::
        && lib.parse(files[0]).Some? && nets == lib.parse(files[0]).value.nets + rest
        && Concatenation(lib, files[1..], rest)
  }

  lemma {:induction false} ConcatenationExtends(
      lib: Library, files: seq<Bytes>, nets: seq<NB.Net>, last: Bytes, more: Parsed)
    requires Concatenation(lib, files, nets) && lib.parse(last) == Some(more)
    ensures Concatenation(lib, files + [last], nets + more.nets)
    decreases |files|
  {
    if files == [] {
      assert [last][1..] == [];
      AddNothing([last]);
      AddNothing(more.nets);
      assert Concatenation(lib, [last][1..], []);
    } else {
      var first := lib.parse(files[0]).value.nets;
      var rest :| nets == first + rest && Concatenation(lib, files[1..], rest);
      ConcatenationExtends(lib, files[1..], rest, last, more);
      FirstApart(files, [last]);
      Associate(first, rest, more.nets);
    }
  }

  /** The loader takes all files or none: one that is refused makes the set unusable, and
      otherwise every block of every file is loaded, in file order. */
  lemma {:induction false} LoadsAllOrNothing(lib: Library, files: seq<Bytes>)
    ensures LoadNets(lib, files).Some? <==> forall b :: b in files ==> lib.parse(b).Some?
    ensures LoadNets(lib, files).Some? ==> Concatenation(lib, files, LoadNets(lib, files).value)
    decreases |files|
  {
    if files != [] {
      var front, last := files[..|files| - 1], files[|files| - 1];
      LoadsAllOrNothing(lib, front);
      assert files == front + [last];
      assert last in files && forall b :: b in files <==> b in front || b == last;
      if LoadNets(lib, files).Some? {
        ConcatenationExtends(lib, front, LoadNets(lib, front).value, last, lib.parse(last).value);
      }
    }
  }

  lemma TableAnswers(nets: seq<NB.Net>, v4: bool, address: int)
    ensures NB.FindRow(Table(nets, v4), address).Some? <==> Listed(nets, v4, address)
  {
    var family := Family(nets, v4);
    var rows := NB.Rows(family);
    NB.LookupTheorem(family, address);
    if Listed(nets, v4, address) {
      var n :| n in nets && n.v4 == v4 && NB.Inside(address, NB.RowOf(n));
      FamilyMembers(nets, v4, n);
      var i :| 0 <= i < |family| && family[i] == n;
      assert rows[i] in rows && NB.Inside(address, rows[i]);
    }
    if NB.FindRow(Table(nets, v4), address).Some? {
      var s :| s in rows && NB.Inside(address, s);
      var i :| 0 <= i < |rows| && rows[i] == s;
      FamilyMembers(nets, v4, family[i]);
      assert family[i] in family;
    }
  }

  /** After exit status 0, what the application loads from the live files is a usable list of at
      least MIN_ENTRIES ranges that SOURCE.json counts, and it matches an address exactly when a
      published block holds it: when the address's leading bits are those of a listed network. */
  lemma PublishedListAnswers(fs: Files, lib: Library, a: Attempt, v4: bool, address: int)
    requires Succeeds(lib, a)
    ensures
      var end := Run(fs, FetchCalls(lib, a));
      && LiveOf(0) in end && LiveOf(1) in end && Manifest in end
      && var live := [end[LiveOf(0)], end[LiveOf(1)]];
         && Usable(lib, live) && lib.parse(live[0]).Some? && lib.parse(live[1]).Some?
         && var nets := lib.parse(live[0]).value.nets + lib.parse(live[1]).value.nets;
            && LoadNets(lib, live) == Some(nets)
            && |Table(nets, true)| + |Table(nets, false)| >= 100
            && end[Manifest] == lib.render(live, |Table(nets, true)| + |Table(nets, false)|)
            && (NB.FindRow(Table(nets, v4), address).Some? <==> Listed(nets, v4, address))
            && (Listed(nets, v4, address) <==> exists n :: n in nets && n.v4 == v4 && NB.Matches(address, n))
  {
    FetchTheorem(fs, lib, a);
    var end := Run(fs, FetchCalls(lib, a));
    assert Replaces(lib, a, 0) && Replaces(lib, a, 1);
    assert [end[LiveOf(0)], end[LiveOf(1)]] == FilesOf(a);
    BothFilesLoad(lib, FileOf(a, 0), FileOf(a, 1));
    var nets := LoadNets(lib, FilesOf(a)).value;
    TableAnswers(nets, v4, address);
    ListedByPrefix(nets, v4, address);
  }

  /** Nothing outside stood in the way: both files arrived within 20 MiB and were written, both
      parse, together they keep at least a hundred ranges, and every move and the manifest went
      through. */
  ghost predicate Unhindered(lib: Library, a: Attempt) {
    && a.mkdirOk && a.stagingOk && a.moved >= 2 && a.manifest.Whole?
    && (forall i :: 0 <= i < 2 ==>
          && a.runs[i].Body? && |a.runs[i].bytes| <= 20_971_520 && a.runs[i].write.Whole?
          && lib.parse(a.runs[i].bytes).Some?)
    && var nets := lib.parse(a.runs[0].bytes).value.nets + lib.parse(a.runs[1].bytes).value.nets;
       |Table(nets, true)| + |Table(nets, false)| >= 100
  }

  lemma SucceedsWhenUnhindered(lib: Library, a: Attempt)
    ensures Succeeds(lib, a) <==> Unhindered(lib, a)
  {
    BothFilesLoad(lib, FileOf(a, 0), FileOf(a, 1));
    LoadsAllOrNothing(lib, FilesOf(a));
    assert FilesOf(a)[0] == FileOf(a, 0) && FilesOf(a)[1] == FileOf(a, 1);
  }

  lemma BothFilesLoad(lib: Library, a: Bytes, b: Bytes)
    ensures LoadNets(lib, [a, b]).Some? ==>
              && lib.parse(a).Some? && lib.parse(b).Some?
              && LoadNets(lib, [a, b]).value == lib.parse(a).value.nets + lib.parse(b).value.nets
  {
    var files := [a, b];
    assert files[..1] == [a] && files[..1][..0] == [];
    if LoadNets(lib, files).Some? {
      assert LoadNets(lib, files[..1]).Some?;
      AddNothing(lib.parse(a).value.nets);
      assert LoadNets(lib, files[..1]) == Some(lib.parse(a).value.nets);
    }
  }

  lemma ListedByPrefix(nets: seq<NB.Net>, v4: bool, address: int)
    ensures Listed(nets, v4, address) <==> exists n :: n in nets && n.v4 == v4 && NB.Matches(address, n)
  {
    forall n: NB.Net
      ensures NB.Inside(address, NB.RowOf(n)) <==> NB.Matches(address, n)
    {
      NB.RangeIsNetwork(address, n);
    }
  }
}

/** The script as written. */
module ThreatScript {
  import opened Wrappers
  import opened Directory
  import opened ThreatFetch
  import opened ThreatSafety
  import NB = NetBlocks

  method WriteFile(disk: Disk, p: Path, b: Bytes, w: FileWrite) returns (ok: bool)
    requires disk.Valid()
    modifies disk
    ensures disk.Valid() && disk.log == old(disk.log) + WriteCalls(p, b, w)
    ensures ok <==> w.Whole?
  {
    if w.NotOpened? {
      return false;
    }
    disk.Do(Create(p));
    disk.Do(Append(p, if w.Torn? then w.bytes else b));
    ok := w.Whole?;
  }

  method Stage(disk: Disk, a: Attempt) returns (ok: bool)
    requires disk.Valid()
    modifies disk
    ensures disk.Valid() && disk.log == old(disk.log) + StageCalls(a)
    ensures ok <==> Arrived(a, 0) && Arrived(a, 1)
  {
    for i := 0 to |FILENAMES|
      invariant disk.Valid()
      invariant i == 0 ==> disk.log == old(disk.log)
      invariant i == 1 ==> Arrived(a, 0) && disk.log == old(disk.log) + FileCalls(a, 0)
      invariant i == 2 ==> Arrived(a, 0) && Arrived(a, 1) && disk.log == old(disk.log) + StageCalls(a)
    {
      match a.runs[i] {
        case Refused =>
          return false;
        case Body(b, w) =>
          if |b| > MAX_BYTES {
            return false;
          }
          var written := WriteFile(disk, StagedOf(a, i), b, w);
          if !written {
            return false;
          }
      }
    }
    ok := true;
  }

  /** `ThreatList(stage)`: one table per family, frozen after every file has been read. */
  method Load(lib: Library, files: seq<Bytes>) returns (entries: Option<nat>)
    ensures entries.Some? <==> LoadNets(lib, files).Some?
    ensures entries.Some? ==> entries.value == Entries(LoadNets(lib, files).value)
  {
    var nets: seq<NB.Net> := [];
    for i := 0 to |files|
      invariant LoadNets(lib, files[..i]) == Some(nets)
    {
      assert files[..i + 1][..i] == files[..i];
      var parsed := lib.parse(files[i]);
      if parsed.None? {
        Refuses(lib, files, i + 1);
        return None;
      }
      nets := nets + parsed.value.nets;
    }
    assert files[..|files|] == files;
    entries := Some(|Table(nets, true)| + |Table(nets, false)|);
  }

  lemma {:induction false} Refuses(lib: Library, files: seq<Bytes>, n: nat)
    requires n <= |files| && LoadNets(lib, files[..n]).None?
    ensures LoadNets(lib, files).None?
    decreases |files| - n
  {
    if n == |files| {
      assert files[..n] == files;
    } else {
      assert files[..n + 1][..n] == files[..n];
      Refuses(lib, files, n + 1);
    }
  }

  method Publish(disk: Disk, a: Attempt) returns (ok: bool)
    requires disk.Valid()
    modifies disk
    ensures disk.Valid() && disk.log == old(disk.log) + MoveCalls(a, MovesDone(a))
    ensures ok <==> a.moved >= |FILENAMES|
  {
    for i := 0 to |FILENAMES|
      invariant disk.Valid() && i <= MovesDone(a) && disk.log == old(disk.log) + MoveCalls(a, i)
    {
      if i == a.moved {
        return false;
      }
      disk.Do(Move(StagedOf(a, i), LiveOf(i)));
    }
    ok := true;
  }

  method Cleanup(disk: Disk, a: Attempt)
    requires disk.Valid()
    modifies disk
    ensures disk.Valid() && disk.log == old(disk.log) + CleanupCalls(a)
  {
    disk.Do(Remove(StagedOf(a, 0)));
    disk.Do(Remove(StagedOf(a, 1)));
    disk.Do(Remove(StagingDir(a.suffix)));
  }

  lemma Regroup(l: seq<Event>, a: seq<Event>, b: seq<Event>, c: seq<Event>, d: seq<Event>, e: seq<Event>)
    ensures l + (a + b + c + d + e) == l + a + b + c + d + e
  {
  }

  /** `main`: exit status 0 exactly when `fetch` raised nothing. */
  method FetchMain(disk: Disk, lib: Library, a: Attempt) returns (code: int)
    requires disk.Valid()
    modifies disk
    ensures disk.Valid() && disk.log == old(disk.log) + FetchCalls(lib, a)
    ensures disk.files == Run(old(disk.files), FetchCalls(lib, a))
    ensures code == if Succeeds(lib, a) then 0 else 1
    ensures code == 0 <==> Unhindered(lib, a)
  {
    SucceedsWhenUnhindered(lib, a);
    RunConcat(disk.start, disk.log, FetchCalls(lib, a));
    if !a.mkdirOk || !a.stagingOk {
      return 1;
    }
    ghost var c1, c2, c4 := StageCalls(a), PublishCalls(lib, a), FinishCalls(lib, a);
    Regroup(disk.log, [Create(StagingDir(a.suffix))], c1, c2, CleanupCalls(a), c4);
    disk.Do(Create(StagingDir(a.suffix)));
    var ok := Stage(disk, a);
    var entries := 0;
    if ok {
      var loaded := Load(lib, FilesOf(a));
      ok := loaded.Some? && loaded.value >= MIN_ENTRIES;
      entries := if ok then loaded.value else 0;
    }
    assert ok <==> SetGood(lib, a);
    if ok {
      ok := Publish(disk, a);
    }
    assert disk.log == old(disk.log) + [Create(StagingDir(a.suffix))] + c1 + c2;
    Cleanup(disk, a);
    if !ok {
      return 1;
    }
    var written := WriteFile(disk, Manifest, lib.render(FilesOf(a), entries), a.manifest);
    code := if written then 0 else 1;
  }
}
