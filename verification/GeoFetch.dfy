/** scripts/fetch_geo_data.py: what one `fetch` and one `main` do to the directory, as the
    sequence of file-system calls they make under a given pattern of outside failures. */
module GeoFetch {
  import opened Wrappers
  import opened Directory

  const MAX_BYTES: nat := 200 * 1024 * 1024
  const CHUNK_BYTES: nat := 1048576

  datatype Edition = Edition(slug: string, filename: string, key: string)

  const COUNTRY := Edition("dbip-country-lite", "dbip-country-lite.mmdb", "country")
  const ASN := Edition("dbip-asn-lite", "dbip-asn-lite.mmdb", "autonomous_system_number")
  const EDITIONS: seq<Edition> := [COUNTRY, ASN]

  /** A release is the calendar month asked for by default, or whatever text `--month` gave. */
  datatype Release = Month(year: int, month: int) | Named(text: string)

  /** What `GzipFile.read(1 << 20)` returns before the end of the stream. */
  type Chunk = c: Bytes | 0 < |c| <= CHUNK_BYTES witness [0]

  /** One download as the outside world plays it: refused before the target file is opened, or
      a stream of chunks that either ends or raises after the last one. */
  datatype Transfer = Refused | Stream(chunks: seq<Chunk>, ends: bool)

  datatype ManifestWrite = NotOpened | Torn(bytes: Bytes) | Written

  datatype EditionRun = EditionRun(transfer: Transfer, readable: bool)

  /** Everything one call of `fetch` meets outside itself. `moved` is how many `os.replace`
      calls succeed before one raises. */
  datatype RawAttempt = RawAttempt(
    release: Release, mkdirOk: bool, runs: seq<EditionRun>, moved: nat, manifest: ManifestWrite, fetchedAt: string)
  type Attempt = a: RawAttempt | |a.runs| == |EDITIONS|
    witness RawAttempt(Named(""), false, [EditionRun(Refused, false), EditionRun(Refused, false)], 0, NotOpened, "")

  datatype FileInfo = FileInfo(edition: Edition, release: Release, sha256: string, size: nat, buildEpoch: Option<int>)
  datatype ManifestText = ManifestText(release: Release, fetchedAt: string, files: seq<FileInfo>)

  /** The parts of the program whose internals are not modelled: the MMDB reader's answer for
      the probe address, SHA-256, and JSON rendering. `check` refuses a file by raising, which
      is None; a file it accepts may still carry no build epoch. */
  datatype Library = Library(
    check: (string, Bytes) -> Option<Option<int>>,
    sha256: Bytes -> string,
    render: ManifestText -> Bytes)

  function Flatten(chunks: seq<Chunk>): Bytes {
    if chunks == [] then [] else chunks[0] + Flatten(chunks[1..])
  }

  /** The whole decompressed file, when the stream ends and is not over the size limit. */
  function Payload(t: Transfer): Option<Bytes> {
    if t.Stream? && t.ends && |Flatten(t.chunks)| <= MAX_BYTES then Some(Flatten(t.chunks)) else None
  }

  /** The edition's file arrived whole and the application's own reader accepted it. */
  predicate Good(lib: Library, a: Attempt, i: nat)
    requires i < |EDITIONS|
  {
    && Payload(a.runs[i].transfer).Some?
    && a.runs[i].readable
    && lib.check(EDITIONS[i].key, Payload(a.runs[i].transfer).value).Some?
  }

  predicate AllGood(lib: Library, a: Attempt) {
    forall i :: 0 <= i < |EDITIONS| ==> Good(lib, a, i)
  }

  function FileOf(a: Attempt, i: nat): Bytes
    requires i < |EDITIONS|
  {
    match Payload(a.runs[i].transfer) case Some(b) => b case None => []
  }

  function PartOf(i: nat): Path requires i < |EDITIONS| { Part(EDITIONS[i].filename) }
  function LiveOf(i: nat): Path requires i < |EDITIONS| { Live(EDITIONS[i].filename) }

  function Info(lib: Library, a: Attempt, i: nat): FileInfo
    requires i < |EDITIONS| && Good(lib, a, i)
  {
    var b := FileOf(a, i);
    FileInfo(EDITIONS[i], a.release, lib.sha256(b), |b|, lib.check(EDITIONS[i].key, b).value)
  }

  function ManifestOf(lib: Library, a: Attempt): ManifestText
    requires AllGood(lib, a)
  {
    ManifestText(a.release, a.fetchedAt, seq(|EDITIONS|, i requires 0 <= i < |EDITIONS| => Info(lib, a, i)))
  }

  // ----- the calls -----

  function Appends(chunks: seq<Chunk>, written: nat, target: Path): seq<Event> {
    if chunks == [] || written + |chunks[0]| > MAX_BYTES then []
    else [Append(target, chunks[0])] + Appends(chunks[1..], written + |chunks[0]|, target)
  }

  function DownloadCalls(t: Transfer, target: Path): seq<Event> {
    if t.Refused? then [] else [Create(target)] + Appends(t.chunks, 0, target)
  }

  /** Download and check edition `i` and those after it, stopping at the first that fails. */
  function StageCalls(lib: Library, a: Attempt, i: nat): seq<Event>
    requires i <= |EDITIONS|
    decreases |EDITIONS| - i
  {
    if i == |EDITIONS| then []
    else DownloadCalls(a.runs[i].transfer, PartOf(i)) + (if Good(lib, a, i) then StageCalls(lib, a, i + 1) else [])
  }

  /** How many editions reached the `staged` list: those downloaded, checked or not. */
  function StagedCount(lib: Library, a: Attempt, i: nat): (n: nat)
    requires i <= |EDITIONS|
    ensures i <= n <= |EDITIONS|
    decreases |EDITIONS| - i
  {
    if i == |EDITIONS| then i
    else if Good(lib, a, i) then StagedCount(lib, a, i + 1)
    else if Payload(a.runs[i].transfer).Some? then i + 1 else i
  }

  function ReplaceCalls(i: nat, n: nat): seq<Event>
    requires i <= n <= |EDITIONS|
    decreases n - i
  {
    if i == n then [] else [Move(PartOf(i), LiveOf(i))] + ReplaceCalls(i + 1, n)
  }

  function UnlinkCalls(i: nat, n: nat): seq<Event>
    requires i <= n <= |EDITIONS|
    decreases n - i
  {
    if i == n then [] else [Remove(PartOf(i))] + UnlinkCalls(i + 1, n)
  }

  function ReplacesDone(a: Attempt): (n: nat)
    ensures n <= |EDITIONS|
  {
    if a.moved < |EDITIONS| then a.moved else |EDITIONS|
  }

  function ManifestCalls(lib: Library, a: Attempt): seq<Event>
    requires AllGood(lib, a)
  {
    match a.manifest
    case NotOpened => []
    case Torn(b) => [Create(Manifest), Append(Manifest, b)]
    case Written => [Create(Manifest), Append(Manifest, lib.render(ManifestOf(lib, a)))]
  }

  function PublishCalls(lib: Library, a: Attempt): seq<Event> {
    if AllGood(lib, a) then ReplaceCalls(0, ReplacesDone(a)) else []
  }

  function CleanupCalls(lib: Library, a: Attempt): seq<Event> {
    UnlinkCalls(0, StagedCount(lib, a, 0)) + UnlinkCalls(0, |EDITIONS|)
  }

  function FinishCalls(lib: Library, a: Attempt): seq<Event> {
    if AllGood(lib, a) && a.moved >= |EDITIONS| then ManifestCalls(lib, a) else []
  }

  function FetchCalls(lib: Library, a: Attempt): seq<Event> {
    if !a.mkdirOk then []
    else StageCalls(lib, a, 0) + PublishCalls(lib, a) + CleanupCalls(lib, a) + FinishCalls(lib, a)
  }

  /** `fetch` returned instead of raising. */
  predicate Succeeds(lib: Library, a: Attempt) {
    a.mkdirOk && AllGood(lib, a) && a.moved >= |EDITIONS| && a.manifest.Written?
  }

  /** `fetch` got as far as replacing edition `i`'s live file. */
  predicate Replaces(lib: Library, a: Attempt, i: nat) {
    a.mkdirOk && AllGood(lib, a) && i < a.moved
  }

  function MainCalls(lib: Library, tries: seq<Attempt>): seq<Event> {
    if tries == [] then []
    else FetchCalls(lib, tries[0]) + (if Succeeds(lib, tries[0]) then [] else MainCalls(lib, tries[1..]))
  }
}

/** Safety of every step of `fetch` and `main`, and what each leaves behind. */
module GeoSafety {
  import opened Wrappers
  import opened Directory
  import opened GeoFetch

  function Scratch(): set<Path> { {PartOf(0), PartOf(1)} }

  lemma EditionIndex(i: nat)
    requires i < |EDITIONS|
    ensures i == 0 || i == 1
    ensures PartOf(i) in Scratch()
    ensures PartOf(0) != PartOf(1) && LiveOf(0) != LiveOf(1)
  {
  }

  // ----- download -----

  lemma {:induction false} FlattenConcat(a: seq<Chunk>, b: seq<Chunk>)
    ensures Flatten(a + b) == Flatten(a) + Flatten(b)
    decreases a
  {
    if a == [] {
      assert a + b == b;
    } else {
      assert (a + b)[1..] == a[1..] + b;
      FlattenConcat(a[1..], b);
    }
  }

  lemma {:induction false} AppendsStay(chunks: seq<Chunk>, written: nat, target: Path)
    ensures forall e :: e in Appends(chunks, written, target) ==> Touches(e) == {target}
    decreases chunks
  {
    if chunks != [] && written + |chunks[0]| <= MAX_BYTES {
      AppendsStay(chunks[1..], written + |chunks[0]|, target);
    }
  }

  /** Accepting chunks one at a time under the running limit writes a prefix of the stream, and
      writes all of it exactly when the whole stream is within the limit. */
  lemma {:induction false} AppendsWrite(fs: Files, chunks: seq<Chunk>, target: Path)
    requires target in fs && |fs[target]| <= MAX_BYTES
    ensures
      var end := Run(fs, Appends(chunks, |fs[target]|, target));
      && target in end && |end[target]| <= MAX_BYTES
      && end[target] <= fs[target] + Flatten(chunks)
      && (|fs[target] + Flatten(chunks)| <= MAX_BYTES ==> end[target] == fs[target] + Flatten(chunks))
    decreases chunks
  {
    if chunks != [] && |fs[target]| + |chunks[0]| <= MAX_BYTES {
      var next := Apply(fs, Append(target, chunks[0]));
      AppendsWrite(next, chunks[1..], target);
      assert next[target] + Flatten(chunks[1..]) == fs[target] + Flatten(chunks);
      assert Appends(chunks, |fs[target]|, target)[1..] == Appends(chunks[1..], |next[target]|, target);
    }
  }

  lemma DownloadLeaves(fs: Files, t: Transfer, target: Path)
    ensures SameOutside(fs, Run(fs, DownloadCalls(t, target)), {target})
    ensures Payload(t).Some? ==>
              var end := Run(fs, DownloadCalls(t, target)); target in end && end[target] == Payload(t).value
    ensures forall e :: e in DownloadCalls(t, target) ==> Touches(e) == {target}
  {
    if t.Stream? {
      AppendsStay(t.chunks, 0, target);
      Confined(fs, DownloadCalls(t, target), {target});
      AppendsWrite(Apply(fs, Create(target)), t.chunks, target);
      assert DownloadCalls(t, target)[1..] == Appends(t.chunks, 0, target);
      assert [] + Flatten(t.chunks) == Flatten(t.chunks);
    }
  }

  // ----- staging -----

  lemma {:induction false} StageStays(lib: Library, a: Attempt, i: nat)
    requires i <= |EDITIONS|
    ensures forall e :: e in StageCalls(lib, a, i) ==> Touches(e) <= Scratch()
    decreases |EDITIONS| - i
  {
    if i < |EDITIONS| {
      EditionIndex(i);
      DownloadLeaves(map[], a.runs[i].transfer, PartOf(i));
      if Good(lib, a, i) {
        StageStays(lib, a, i + 1);
      }
    }
  }

  /** When every edition is good, staging leaves each one's whole file under its `.part` name. */
  lemma {:induction false} StageDelivers(fs: Files, lib: Library, a: Attempt, i: nat)
    requires i <= |EDITIONS| && AllGood(lib, a)
    requires forall j :: 0 <= j < i ==> PartOf(j) in fs && fs[PartOf(j)] == FileOf(a, j)
    ensures
      var end := Run(fs, StageCalls(lib, a, i));
      forall j :: 0 <= j < |EDITIONS| ==> PartOf(j) in end && end[PartOf(j)] == FileOf(a, j)
    decreases |EDITIONS| - i
  {
    if i < |EDITIONS| {
      EditionIndex(i);
      var calls := DownloadCalls(a.runs[i].transfer, PartOf(i));
      var next := Run(fs, calls);
      DownloadLeaves(fs, a.runs[i].transfer, PartOf(i));
      assert Good(lib, a, i);
      forall j | 0 <= j <= i
        ensures PartOf(j) in next && next[PartOf(j)] == FileOf(a, j)
      {
        EditionIndex(j);
        assert j != i ==> Same(fs, next, PartOf(j));
      }
      StageDelivers(next, lib, a, i + 1);
      RunConcat(fs, calls, StageCalls(lib, a, i + 1));
    }
  }

  // ----- publishing -----

  /** Each live database holds what it held in `fs`, or edition `i`'s file of attempt `a`. */
  ghost predicate LiveFrom(fs: Files, lib: Library, a: Attempt, st: Files) {
    forall i :: 0 <= i < |EDITIONS| ==>
      Same(fs, st, LiveOf(i)) || (AllGood(lib, a) && LiveOf(i) in st && st[LiveOf(i)] == FileOf(a, i))
  }

  lemma {:induction false} ReplaceMoves(fs: Files, lib: Library, a: Attempt, st: Files, i: nat, n: nat)
    requires i <= n <= |EDITIONS| && AllGood(lib, a) && LiveFrom(fs, lib, a, st)
    requires forall j :: i <= j < |EDITIONS| ==> PartOf(j) in st && st[PartOf(j)] == FileOf(a, j)
    ensures Always(st, ReplaceCalls(i, n), s => LiveFrom(fs, lib, a, s))
    ensures
      var end := Run(st, ReplaceCalls(i, n));
      forall j :: 0 <= j < |EDITIONS| ==>
        if i <= j < n then LiveOf(j) in end && end[LiveOf(j)] == FileOf(a, j) else Same(st, end, LiveOf(j))
    ensures SameOutside(st, Run(st, ReplaceCalls(i, n)), Scratch() + {LiveOf(0), LiveOf(1)})
    decreases n - i
  {
    if i < n {
      EditionIndex(i);
      var next := Apply(st, Move(PartOf(i), LiveOf(i)));
      assert forall j :: i < j < |EDITIONS| ==> PartOf(j) != PartOf(i);
      ReplaceMoves(fs, lib, a, next, i + 1, n);
      assert ReplaceCalls(i, n)[1..] == ReplaceCalls(i + 1, n);
    }
  }

  // ----- cleanup -----

  lemma {:induction false} UnlinkRemoves(fs: Files, i: nat, n: nat)
    requires i <= n <= |EDITIONS|
    ensures forall e :: e in UnlinkCalls(i, n) ==> Touches(e) <= Scratch()
    ensures forall j :: i <= j < n ==> PartOf(j) !in Run(fs, UnlinkCalls(i, n))
    ensures forall p :: p !in fs ==> p !in Run(fs, UnlinkCalls(i, n))
    decreases n - i
  {
    if i < n {
      EditionIndex(i);
      UnlinkRemoves(Apply(fs, Remove(PartOf(i))), i + 1, n);
      assert UnlinkCalls(i, n)[1..] == UnlinkCalls(i + 1, n);
    }
  }

  lemma CleanupRemoves(fs: Files, lib: Library, a: Attempt)
    ensures forall e :: e in CleanupCalls(lib, a) ==> Touches(e) <= Scratch()
    ensures forall j :: 0 <= j < |EDITIONS| ==> PartOf(j) !in Run(fs, CleanupCalls(lib, a))
    ensures SameOutside(fs, Run(fs, CleanupCalls(lib, a)), Scratch())
  {
    var k := StagedCount(lib, a, 0);
    UnlinkRemoves(fs, 0, k);
    UnlinkRemoves(Run(fs, UnlinkCalls(0, k)), 0, |EDITIONS|);
    RunConcat(fs, UnlinkCalls(0, k), UnlinkCalls(0, |EDITIONS|));
    Confined(fs, CleanupCalls(lib, a), Scratch());
  }

  // ----- one fetch -----

  function Owned(): set<Path> { Scratch() + {LiveOf(0), LiveOf(1), Manifest} }

  ghost predicate FetchStep(fs: Files, lib: Library, a: Attempt, st: Files) {
    LiveFrom(fs, lib, a, st) && SameOutside(fs, st, Owned())
  }

  /** Calls confined to the scratch names, or to the manifest, keep the step invariant. */
  lemma AsideStep(fs: Files, lib: Library, a: Attempt, st: Files, calls: seq<Event>, ps: set<Path>)
    requires FetchStep(fs, lib, a, st)
    requires ps == Scratch() || ps == {Manifest}
    requires forall e :: e in calls ==> Touches(e) <= ps
    ensures Always(st, calls, s => FetchStep(fs, lib, a, s))
    ensures SameOutside(st, Run(st, calls), ps)
    ensures FetchStep(fs, lib, a, Run(st, calls))
  {
    Confined(st, calls, ps);
    forall s | SameOutside(st, s, ps)
      ensures FetchStep(fs, lib, a, s)
    {
      forall i | 0 <= i < |EDITIONS|
        ensures Same(st, s, LiveOf(i))
      {
        EditionIndex(i);
      }
      forall p | p !in Owned()
        ensures Same(fs, s, p)
      {
        assert Same(fs, st, p) && Same(st, s, p);
      }
    }
    AlwaysWeaken(st, calls, s => SameOutside(st, s, ps), s => FetchStep(fs, lib, a, s));
    AlwaysEnd(st, calls, s => FetchStep(fs, lib, a, s));
  }

  /** Staging touches scratch names only. */
  lemma StageStep(fs: Files, lib: Library, a: Attempt)
    ensures Always(fs, StageCalls(lib, a, 0), s => FetchStep(fs, lib, a, s))
    ensures
      var st := Run(fs, StageCalls(lib, a, 0));
      FetchStep(fs, lib, a, st) && SameOutside(fs, st, Scratch())
  {
    StageStays(lib, a, 0);
    AsideStep(fs, lib, a, fs, StageCalls(lib, a, 0), Scratch());
  }

  lemma ReplaceStep(fs: Files, lib: Library, a: Attempt, st: Files, n: nat)
    requires n <= |EDITIONS| && AllGood(lib, a) && FetchStep(fs, lib, a, st)
    requires forall j :: 0 <= j < |EDITIONS| ==> PartOf(j) in st && st[PartOf(j)] == FileOf(a, j)
    ensures Always(st, ReplaceCalls(0, n), s => FetchStep(fs, lib, a, s))
  {
    var calls := ReplaceCalls(0, n);
    ReplaceMoves(fs, lib, a, st, 0, n);
    ReplaceTouches(0, n);
    Confined(st, calls, Owned());
    var P := s => LiveFrom(fs, lib, a, s);
    var Q := s => SameOutside(st, s, Owned());
    AlwaysBoth(st, calls, P, Q);
    forall s | P(s) && Q(s)
      ensures FetchStep(fs, lib, a, s)
    {
      forall p | p !in Owned()
        ensures Same(fs, s, p)
      {
        assert Same(fs, st, p) && Same(st, s, p);
      }
    }
    AlwaysWeaken(st, calls, s => P(s) && Q(s), s => FetchStep(fs, lib, a, s));
  }

  /** The live files after the publishing loop, given that staging left them alone. */
  ghost predicate AfterPublish(fs: Files, lib: Library, a: Attempt, end: Files) {
    && (forall i :: 0 <= i < |EDITIONS| ==>
          if AllGood(lib, a) && i < a.moved then LiveOf(i) in end && end[LiveOf(i)] == FileOf(a, i)
          else Same(fs, end, LiveOf(i)))
    && Same(fs, end, Manifest)
  }

  lemma PublishStep(fs: Files, lib: Library, a: Attempt, st: Files)
    requires st == Run(fs, StageCalls(lib, a, 0))
    ensures Always(st, PublishCalls(lib, a), s => FetchStep(fs, lib, a, s))
    ensures AfterPublish(fs, lib, a, Run(st, PublishCalls(lib, a)))
  {
    StageStep(fs, lib, a);
    if AllGood(lib, a) {
      StageDelivers(fs, lib, a, 0);
      ReplaceStep(fs, lib, a, st, ReplacesDone(a));
      ReplaceMoves(fs, lib, a, st, 0, ReplacesDone(a));
    }
  }

  lemma {:induction false} ReplaceTouches(i: nat, n: nat)
    requires i <= n <= |EDITIONS|
    ensures forall e :: e in ReplaceCalls(i, n) ==> Touches(e) <= Owned()
    decreases n - i
  {
    if i < n {
      EditionIndex(i);
      ReplaceTouches(i + 1, n);
    }
  }

  lemma {:induction false} AlwaysBoth(fs: Files, es: seq<Event>, P: Files -> bool, Q: Files -> bool)
    requires Always(fs, es, P) && Always(fs, es, Q)
    ensures Always(fs, es, s => P(s) && Q(s))
    decreases es
  {
    if es != [] {
      AlwaysBoth(Apply(fs, es[0]), es[1..], P, Q);
    }
  }

  /** What `fetch` leaves: which live files were replaced and by what, no `.part` file, and the
      manifest only after every replace. */
  ghost predicate FetchResult(fs: Files, lib: Library, a: Attempt, end: Files) {
    && (forall i :: 0 <= i < |EDITIONS| ==>
          if Replaces(lib, a, i) then LiveOf(i) in end && end[LiveOf(i)] == FileOf(a, i)
          else Same(fs, end, LiveOf(i)))
    && (a.mkdirOk ==> forall i :: 0 <= i < |EDITIONS| ==> PartOf(i) !in end)
    && (if Replaces(lib, a, |EDITIONS| - 1) && !a.manifest.NotOpened?
        then Manifest in end &&
             end[Manifest] == if a.manifest.Torn? then a.manifest.bytes else lib.render(ManifestOf(lib, a))
        else Same(fs, end, Manifest))
    && SameOutside(fs, end, Owned())
  }

  ghost predicate StepsSafe(fs: Files, lib: Library, a: Attempt, st: Files, calls: seq<Event>) {
    Always(st, calls, s => FetchStep(fs, lib, a, s))
  }

  lemma StepsSafeConcat(fs: Files, lib: Library, a: Attempt, st: Files, c: seq<Event>, d: seq<Event>)
    requires StepsSafe(fs, lib, a, st, c) && StepsSafe(fs, lib, a, Run(st, c), d)
    ensures StepsSafe(fs, lib, a, st, c + d)
    ensures Run(st, c + d) == Run(Run(st, c), d)
  {
    AlwaysConcat(st, c, d, s => FetchStep(fs, lib, a, s));
    RunConcat(st, c, d);
  }

  lemma TailStep(fs: Files, lib: Library, a: Attempt, st: Files)
    requires FetchStep(fs, lib, a, st)
    ensures StepsSafe(fs, lib, a, st, CleanupCalls(lib, a) + FinishCalls(lib, a))
    ensures
      var end := Run(st, CleanupCalls(lib, a) + FinishCalls(lib, a));
      end == Run(Run(st, CleanupCalls(lib, a)), FinishCalls(lib, a)) && FetchStep(fs, lib, a, end)
  {
    CleanupRemoves(st, lib, a);
    AsideStep(fs, lib, a, st, CleanupCalls(lib, a), Scratch());
    AsideStep(fs, lib, a, Run(st, CleanupCalls(lib, a)), FinishCalls(lib, a), {Manifest});
    StepsSafeConcat(fs, lib, a, st, CleanupCalls(lib, a), FinishCalls(lib, a));
  }

  /** Staging and publishing, call by call, and the state they leave. */
  lemma HeadStep(fs: Files, lib: Library, a: Attempt)
    ensures StepsSafe(fs, lib, a, fs, StageCalls(lib, a, 0) + PublishCalls(lib, a))
    ensures
      var mid := Run(fs, StageCalls(lib, a, 0) + PublishCalls(lib, a));
      FetchStep(fs, lib, a, mid) && AfterPublish(fs, lib, a, mid)
  {
    var c1, c2 := StageCalls(lib, a, 0), PublishCalls(lib, a);
    StageStep(fs, lib, a);
    PublishStep(fs, lib, a, Run(fs, c1));
    StepsSafeConcat(fs, lib, a, fs, c1, c2);
    AlwaysEnd(fs, c1 + c2, s => FetchStep(fs, lib, a, s));
  }

  lemma FetchSplits(lib: Library, a: Attempt)
    requires a.mkdirOk
    ensures
      FetchCalls(lib, a)
      == (StageCalls(lib, a, 0) + PublishCalls(lib, a)) + (CleanupCalls(lib, a) + FinishCalls(lib, a))
  {
    Associate(StageCalls(lib, a, 0) + PublishCalls(lib, a), CleanupCalls(lib, a), FinishCalls(lib, a));
  }

  /** Every call of `fetch` is safe, and `FetchResult` is what it leaves. */
  lemma FetchTheorem(fs: Files, lib: Library, a: Attempt)
    ensures StepsSafe(fs, lib, a, fs, FetchCalls(lib, a))
    ensures FetchResult(fs, lib, a, Run(fs, FetchCalls(lib, a)))
  {
    if a.mkdirOk {
      var head, tail := StageCalls(lib, a, 0) + PublishCalls(lib, a), CleanupCalls(lib, a) + FinishCalls(lib, a);
      FetchSplits(lib, a);
      HeadStep(fs, lib, a);
      TailStep(fs, lib, a, Run(fs, head));
      StepsSafeConcat(fs, lib, a, fs, head, tail);
      FetchEnds(fs, lib, a, Run(fs, head), Run(Run(fs, head), CleanupCalls(lib, a)));
    }
  }

  /** Cleanup and the manifest write turn the published state into `FetchResult`. */
  lemma FetchEnds(fs: Files, lib: Library, a: Attempt, s2: Files, s3: Files)
    requires a.mkdirOk && AfterPublish(fs, lib, a, s2)
    requires s3 == Run(s2, CleanupCalls(lib, a))
    requires FetchStep(fs, lib, a, Run(s3, FinishCalls(lib, a)))
    ensures FetchResult(fs, lib, a, Run(s3, FinishCalls(lib, a)))
  {
    var end := Run(s3, FinishCalls(lib, a));
    CleanupRemoves(s2, lib, a);
    FinishWrites(s3, lib, a);
    forall i | 0 <= i < |EDITIONS|
      ensures Same(s2, end, LiveOf(i)) && PartOf(i) !in end
    {
      EditionIndex(i);
      assert Same(s2, s3, LiveOf(i)) && Same(s3, end, LiveOf(i)) && Same(s3, end, PartOf(i));
    }
    assert Same(s2, s3, Manifest);
  }

  lemma WriteWhole(fs: Files, p: Path, b: Bytes)
    ensures
      var end := Run(fs, [Create(p), Append(p, b)]);
      p in end && end[p] == b && SameOutside(fs, end, {p})
  {
    var calls := [Create(p), Append(p, b)];
    assert calls[1..] == [Append(p, b)];
    assert calls[1..][1..] == [];
    var mid := Apply(fs, Create(p));
    assert Run(fs, calls) == Run(mid, calls[1..]) == Apply(mid, Append(p, b));
    assert mid[p] + b == b;
  }

  lemma FinishWrites(fs: Files, lib: Library, a: Attempt)
    ensures
      var end := Run(fs, FinishCalls(lib, a));
      && (if AllGood(lib, a) && a.moved >= |EDITIONS| && !a.manifest.NotOpened?
          then Manifest in end &&
               end[Manifest] == if a.manifest.Torn? then a.manifest.bytes else lib.render(ManifestOf(lib, a))
          else end == fs)
      && SameOutside(fs, end, {Manifest})
  {
    if AllGood(lib, a) && a.moved >= |EDITIONS| && !a.manifest.NotOpened? {
      WriteWhole(fs, Manifest, if a.manifest.Torn? then a.manifest.bytes else lib.render(ManifestOf(lib, a)));
    }
  }

  // ----- main -----

  /** Each live database holds what it held before the run, or a whole, checked file of one of
      the attempts; and nothing outside the script's own names has changed. */
  ghost predicate Published(lib: Library, tries: seq<Attempt>, i: nat, b: Bytes)
    requires i < |EDITIONS|
  {
    exists k :: 0 <= k < |tries| && AllGood(lib, tries[k]) && b == FileOf(tries[k], i)
  }

  ghost predicate MainStep(fs: Files, lib: Library, tries: seq<Attempt>, st: Files) {
    && (forall i :: 0 <= i < |EDITIONS| ==>
          Same(fs, st, LiveOf(i)) || (LiveOf(i) in st && Published(lib, tries, i, st[LiveOf(i)])))
    && SameOutside(fs, st, Owned())
  }

  lemma {:induction false} MainAlways(fs: Files, lib: Library, tries: seq<Attempt>)
    ensures Always(fs, MainCalls(lib, tries), s => MainStep(fs, lib, tries, s))
    decreases tries
  {
    if tries != [] {
      var a, rest := tries[0], tries[1..];
      var P := s => MainStep(fs, lib, tries, s);
      var first := FetchCalls(lib, a);
      FetchTheorem(fs, lib, a);
      forall s | FetchStep(fs, lib, a, s)
        ensures P(s)
      {
      }
      AlwaysWeaken(fs, first, s => FetchStep(fs, lib, a, s), P);
      var mid := Run(fs, first);
      AlwaysEnd(fs, first, P);
      var later := if Succeeds(lib, a) then [] else MainCalls(lib, rest);
      if !Succeeds(lib, a) {
        MainAlways(mid, lib, rest);
        forall s | MainStep(mid, lib, rest, s)
          ensures P(s)
        {
          MainStepExtends(fs, mid, lib, tries, s);
        }
        AlwaysWeaken(mid, later, s => MainStep(mid, lib, rest, s), P);
      }
      AlwaysConcat(fs, first, later, P);
    }
  }

  lemma MainStepExtends(fs: Files, mid: Files, lib: Library, tries: seq<Attempt>, s: Files)
    requires tries != [] && MainStep(fs, lib, tries, mid) && MainStep(mid, lib, tries[1..], s)
    ensures MainStep(fs, lib, tries, s)
  {
    forall i | 0 <= i < |EDITIONS|
      ensures Same(fs, s, LiveOf(i)) || (LiveOf(i) in s && Published(lib, tries, i, s[LiveOf(i)]))
    {
      if !Same(mid, s, LiveOf(i)) {
        var k :| 0 <= k < |tries| - 1 && AllGood(lib, tries[1..][k]) && s[LiveOf(i)] == FileOf(tries[1..][k], i);
        assert tries[1..][k] == tries[k + 1];
      }
    }
    forall p | p !in Owned()
      ensures Same(fs, s, p)
    {
      assert Same(fs, mid, p) && Same(mid, s, p);
    }
  }

  /** The safety claim in crash form: interrupt `main` after any number of calls. */
  lemma MainSafeAtEveryCrash(fs: Files, lib: Library, tries: seq<Attempt>, k: nat)
    requires k <= |MainCalls(lib, tries)|
    ensures MainStep(fs, lib, tries, Run(fs, MainCalls(lib, tries)[..k]))
  {
    MainAlways(fs, lib, tries);
    AlwaysAtEveryPrefix(fs, MainCalls(lib, tries), s => MainStep(fs, lib, tries, s));
  }

  /** The index of the first attempt that raises nothing, or |tries|. */
  function FirstSuccess(lib: Library, tries: seq<Attempt>): (j: nat)
    ensures j <= |tries|
    ensures j < |tries| ==> Succeeds(lib, tries[j])
    ensures forall i :: 0 <= i < j ==> !Succeeds(lib, tries[i])
  {
    if tries == [] || Succeeds(lib, tries[0]) then 0
    else
      var j := FirstSuccess(lib, tries[1..]);
      assert forall i :: 1 <= i < j + 1 ==> tries[i] == tries[1..][i - 1];
      j + 1
  }

  /** What edition `i`'s live file holds after the attempts up to the first success. */
  function LastPublished(lib: Library, tries: seq<Attempt>, i: nat, before: Option<Bytes>): Option<Bytes>
    requires i < |EDITIONS|
    decreases tries
  {
    if tries == [] then before
    else
      var now := if Replaces(lib, tries[0], i) then Some(FileOf(tries[0], i)) else before;
      if Succeeds(lib, tries[0]) then now else LastPublished(lib, tries[1..], i, now)
  }

  function Lookup(fs: Files, p: Path): Option<Bytes> { if p in fs then Some(fs[p]) else None }

  lemma {:induction false} MainLive(fs: Files, lib: Library, tries: seq<Attempt>, i: nat)
    requires i < |EDITIONS|
    ensures Lookup(Run(fs, MainCalls(lib, tries)), LiveOf(i)) == LastPublished(lib, tries, i, Lookup(fs, LiveOf(i)))
    decreases tries
  {
    if tries != [] {
      var a := tries[0];
      FetchTheorem(fs, lib, a);
      var mid := Run(fs, FetchCalls(lib, a));
      RunConcat(fs, FetchCalls(lib, a), if Succeeds(lib, a) then [] else MainCalls(lib, tries[1..]));
      if !Succeeds(lib, a) {
        MainLive(mid, lib, tries[1..], i);
      }
    }
  }

  /** `m` is a true account of the live files: this release, and for each edition in order the
      digest, the size and the build epoch of the bytes that are there to be opened. */
  ghost predicate Describes(lib: Library, m: ManifestText, release: Release, fetchedAt: string, st: Files) {
    && m.release == release && m.fetchedAt == fetchedAt && |m.files| == |EDITIONS|
    && forall i :: 0 <= i < |EDITIONS| ==>
         && LiveOf(i) in st
         && m.files[i].edition == EDITIONS[i] && m.files[i].release == release
         && m.files[i].sha256 == lib.sha256(st[LiveOf(i)])
         && m.files[i].size == |st[LiveOf(i)]|
         && lib.check(EDITIONS[i].key, st[LiveOf(i)]) == Some(m.files[i].buildEpoch)
  }

  /** SOURCE.json is the rendering of a true account of the live files. */
  ghost predicate Accounted(lib: Library, release: Release, fetchedAt: string, st: Files) {
    && Manifest in st
    && exists m :: Describes(lib, m, release, fetchedAt, st) && st[Manifest] == lib.render(m)
  }

  /** The files an attempt published, the manifest it wrote, and nothing left over. */
  ghost predicate Completed(lib: Library, a: Attempt, end: Files)
    requires AllGood(lib, a)
  {
    && (forall i :: 0 <= i < |EDITIONS| ==> LiveOf(i) in end && end[LiveOf(i)] == FileOf(a, i) && PartOf(i) !in end)
    && Manifest in end && end[Manifest] == lib.render(ManifestOf(lib, a))
  }

  lemma FetchCompletes(fs: Files, lib: Library, a: Attempt)
    requires Succeeds(lib, a)
    ensures Completed(lib, a, Run(fs, FetchCalls(lib, a)))
  {
    FetchTheorem(fs, lib, a);
    assert forall i :: 0 <= i < |EDITIONS| ==> Replaces(lib, a, i);
  }

  lemma CompletedIsAccounted(lib: Library, a: Attempt, end: Files)
    requires AllGood(lib, a) && Completed(lib, a, end)
    ensures Describes(lib, ManifestOf(lib, a), a.release, a.fetchedAt, end)
    ensures Accounted(lib, a.release, a.fetchedAt, end)
    ensures forall i :: 0 <= i < |EDITIONS| ==>
              a.runs[i].transfer.Stream? && end[LiveOf(i)] == Flatten(a.runs[i].transfer.chunks)
  {
    assert forall i :: 0 <= i < |EDITIONS| ==> Good(lib, a, i) && ManifestOf(lib, a).files[i] == Info(lib, a, i);
    forall i | 0 <= i < |EDITIONS|
      ensures a.runs[i].transfer.Stream? && end[LiveOf(i)] == Flatten(a.runs[i].transfer.chunks)
    {
      assert Good(lib, a, i);
    }
  }

  /** Nothing outside stood in the way of the attempt: each stream ended within 200 MiB and its
      file passed the reader, both moves and the manifest went through. */
  ghost predicate Unhindered(lib: Library, a: Attempt) {
    && a.mkdirOk && a.moved >= 2 && a.manifest.Written?
    && forall i :: 0 <= i < |EDITIONS| ==>
         && a.runs[i].transfer.Stream? && a.runs[i].transfer.ends && |Flatten(a.runs[i].transfer.chunks)| <= 209_715_200
         && a.runs[i].readable && lib.check(EDITIONS[i].key, Flatten(a.runs[i].transfer.chunks)).Some?
  }

  lemma SucceedsWhenUnhindered(lib: Library, a: Attempt)
    ensures Succeeds(lib, a) <==> Unhindered(lib, a)
  {
    forall i | 0 <= i < |EDITIONS|
      ensures
        Good(lib, a, i) <==>
        && a.runs[i].transfer.Stream? && a.runs[i].transfer.ends && |Flatten(a.runs[i].transfer.chunks)| <= 209_715_200
        && a.runs[i].readable && lib.check(EDITIONS[i].key, Flatten(a.runs[i].transfer.chunks)).Some?
    {
    }
  }

  lemma {:induction false} MainCompletes(fs: Files, lib: Library, tries: seq<Attempt>)
    requires FirstSuccess(lib, tries) < |tries|
    ensures Completed(lib, tries[FirstSuccess(lib, tries)], Run(fs, MainCalls(lib, tries)))
    decreases tries
  {
    var a := tries[0];
    var mid := Run(fs, FetchCalls(lib, a));
    RunConcat(fs, FetchCalls(lib, a), if Succeeds(lib, a) then [] else MainCalls(lib, tries[1..]));
    if Succeeds(lib, a) {
      FetchCompletes(fs, lib, a);
    } else {
      MainCompletes(mid, lib, tries[1..]);
      assert tries[FirstSuccess(lib, tries)] == tries[1..][FirstSuccess(lib, tries[1..])];
    }
  }

  /** Exit status 0: both databases are the whole streams of the first attempt that raised
      nothing, and SOURCE.json describes them under that attempt's release, whatever earlier
      attempts of the same run left behind. */
  lemma MainSucceeds(fs: Files, lib: Library, tries: seq<Attempt>)
    requires FirstSuccess(lib, tries) < |tries|
    ensures
      var a := tries[FirstSuccess(lib, tries)];
      var end := Run(fs, MainCalls(lib, tries));
      && (forall i :: 0 <= i < |EDITIONS| ==> LiveOf(i) in end && end[LiveOf(i)] == FileOf(a, i) && PartOf(i) !in end)
      && Manifest in end && end[Manifest] == lib.render(ManifestOf(lib, a))
      && Accounted(lib, a.release, a.fetchedAt, end)
      && (forall i :: 0 <= i < |EDITIONS| ==>
            a.runs[i].transfer.Stream? && end[LiveOf(i)] == Flatten(a.runs[i].transfer.chunks))
  {
    MainCompletes(fs, lib, tries);
    CompletedIsAccounted(lib, tries[FirstSuccess(lib, tries)], Run(fs, MainCalls(lib, tries)));
  }

  /** On exit a `.part` file remains exactly when it was there before and no attempt that ran
      could make the directory: one that does removes it, whatever happens to it next. */
  lemma {:induction false} MainLeavesNoPart(fs: Files, lib: Library, tries: seq<Attempt>, i: nat)
    requires i < |EDITIONS|
    ensures PartOf(i) in Run(fs, MainCalls(lib, tries)) <==>
            PartOf(i) in fs && forall k :: 0 <= k < |tries| && k <= FirstSuccess(lib, tries) ==> !tries[k].mkdirOk
    decreases tries
  {
    if tries != [] {
      var a, rest := tries[0], tries[1..];
      FetchTheorem(fs, lib, a);
      var mid := Run(fs, FetchCalls(lib, a));
      RunConcat(fs, FetchCalls(lib, a), if Succeeds(lib, a) then [] else MainCalls(lib, rest));
      assert !a.mkdirOk ==> mid == fs;
      if !Succeeds(lib, a) {
        MainLeavesNoPart(mid, lib, rest, i);
        RanInRest(lib, tries);
      }
    }
  }

  lemma RanInRest(lib: Library, tries: seq<Attempt>)
    requires tries != [] && !Succeeds(lib, tries[0])
    ensures (forall k :: 0 <= k < |tries| && k <= FirstSuccess(lib, tries) ==> !tries[k].mkdirOk) <==>
            !tries[0].mkdirOk && forall k :: 0 <= k < |tries[1..]| && k <= FirstSuccess(lib, tries[1..]) ==>
                !tries[1..][k].mkdirOk
  {
    var rest := tries[1..];
    assert FirstSuccess(lib, tries) == FirstSuccess(lib, rest) + 1;
    assert forall k :: 0 <= k < |rest| ==> rest[k] == tries[k + 1];
    assert forall k :: 1 <= k < |tries| ==> tries[k] == rest[k - 1];
  }

  // ----- "a failure leaves any existing files untouched" -----

  lemma {:induction false} NeverReplaced(lib: Library, tries: seq<Attempt>, i: nat, before: Option<Bytes>)
    requires i < |EDITIONS|
    requires forall k :: 0 <= k < |tries| ==> !Replaces(lib, tries[k], i)
    ensures LastPublished(lib, tries, i, before) == before
    decreases tries
  {
    if tries != [] && !Succeeds(lib, tries[0]) {
      NeverReplaced(lib, tries[1..], i, before);
    }
  }

  lemma {:induction false} ReplacedStays(lib: Library, tries: seq<Attempt>, i: nat, before: Option<Bytes>)
    requires i < |EDITIONS| && FirstSuccess(lib, tries) == |tries|
    requires before.Some? || exists k :: 0 <= k < |tries| && Replaces(lib, tries[k], i)
    ensures LastPublished(lib, tries, i, before).Some?
    decreases tries
  {
    if tries != [] {
      assert !Succeeds(lib, tries[0]);
      var now := if Replaces(lib, tries[0], i) then Some(FileOf(tries[0], i)) else before;
      if now.None? {
        var k :| 0 <= k < |tries| && Replaces(lib, tries[k], i);
        assert tries[k] == tries[1..][k - 1];
      }
      ReplacedStays(lib, tries[1..], i, now);
    }
  }

  /** Every file but the script's own temporary ones is as it was. */
  ghost predicate Untouched(fs: Files, end: Files) { SameOutside(fs, end, Scratch()) }

  lemma {:induction false} ManifestStays(fs: Files, lib: Library, tries: seq<Attempt>)
    requires forall k :: 0 <= k < |tries| ==> !Replaces(lib, tries[k], 0)
    ensures Same(fs, Run(fs, MainCalls(lib, tries)), Manifest)
    decreases tries
  {
    if tries != [] {
      var a, rest := tries[0], tries[1..];
      FetchTheorem(fs, lib, a);
      var mid := Run(fs, FetchCalls(lib, a));
      RunConcat(fs, FetchCalls(lib, a), if Succeeds(lib, a) then [] else MainCalls(lib, rest));
      assert !Replaces(lib, a, |EDITIONS| - 1);
      if !Succeeds(lib, a) {
        ManifestStays(mid, lib, rest);
      }
    }
  }

  lemma UntouchedWithoutReplace(fs: Files, lib: Library, tries: seq<Attempt>)
    requires forall k :: 0 <= k < |tries| ==> !Replaces(lib, tries[k], 0)
    ensures Untouched(fs, Run(fs, MainCalls(lib, tries)))
  {
    var end := Run(fs, MainCalls(lib, tries));
    MainAlways(fs, lib, tries);
    AlwaysEnd(fs, MainCalls(lib, tries), s => MainStep(fs, lib, tries, s));
    ManifestStays(fs, lib, tries);
    forall i | 0 <= i < |EDITIONS|
      ensures Same(fs, end, LiveOf(i))
    {
      MainLive(fs, lib, tries, i);
      NeverReplaced(lib, tries, i, Lookup(fs, LiveOf(i)));
    }
    forall p | p !in Scratch()
      ensures Same(fs, end, p)
    {
      assert p in Owned() ==> p in {LiveOf(0), LiveOf(1), Manifest};
    }
  }

  /** The docstring promises that a failing run leaves any existing files as they were. That
      holds, whatever was there, of every file but the temporary ones, exactly when no attempt
      got past its first `os.replace`. */
  lemma FailureUntouchedExactlyWhen(lib: Library, tries: seq<Attempt>)
    requires FirstSuccess(lib, tries) == |tries|
    ensures (forall fs :: Untouched(fs, Run(fs, MainCalls(lib, tries)))) <==>
            (forall k :: 0 <= k < |tries| ==> !Replaces(lib, tries[k], 0))
  {
    if forall k :: 0 <= k < |tries| ==> !Replaces(lib, tries[k], 0) {
      forall fs: Files
        ensures Untouched(fs, Run(fs, MainCalls(lib, tries)))
      {
        UntouchedWithoutReplace(fs, lib, tries);
      }
    } else {
      var empty: Files := map[];
      EditionIndex(0);
      MainLive(empty, lib, tries, 0);
      ReplacedStays(lib, tries, 0, None);
      assert !Same(empty, Run(empty, MainCalls(lib, tries)), LiveOf(0));
      assert !Untouched(empty, Run(empty, MainCalls(lib, tries)));
    }
  }

  /** The failing family has a member: every file arrives and passes, the second `os.replace`
      raises. The run exits 1 with a new country database beside the old ASN database, and with
      a SOURCE.json that describes the old pair. */
  lemma MixedPairAfterFailure() returns (fs: Files, lib: Library, a: Attempt)
    ensures FirstSuccess(lib, [a]) == 1
    ensures
      var end := Run(fs, MainCalls(lib, [a]));
      && LiveOf(0) in fs && LiveOf(1) in fs && LiveOf(0) in end && LiveOf(1) in end
      && end[LiveOf(0)] == FileOf(a, 0) != fs[LiveOf(0)]
      && end[LiveOf(1)] == fs[LiveOf(1)] != FileOf(a, 1)
      && Manifest in fs && Same(fs, end, Manifest)
  {
    EditionIndex(0);
    var chunks: seq<Chunk> := [[7]];
    var good := EditionRun(Stream(chunks, true), true);
    lib := Library((k, b) => Some(None), b => "", m => []);
    a := RawAttempt(Named("2026-10"), true, [good, good], 1, Written, "");
    fs := map[LiveOf(0) := [1], LiveOf(1) := [2], Manifest := [3]];
    assert Flatten(chunks) == [7] + Flatten(chunks[1..]) == [7];
    assert Payload(good.transfer) == Some([7]);
    assert AllGood(lib, a);
    FetchTheorem(fs, lib, a);
    RunConcat(fs, FetchCalls(lib, a), MainCalls(lib, [a][1..]));
    assert MainCalls(lib, [a]) == FetchCalls(lib, a);
    assert Same(fs, Run(fs, FetchCalls(lib, a)), LiveOf(1));
  }
}
