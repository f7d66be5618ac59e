/** scripts/backfill_background_images.py: object storage and the `brandings` table, with the
    rows changed inside one transaction that commits once at the end. */
module Backfill {
  import opened Wrappers
  import Directory

  type Bytes = Directory.Bytes

  type Id = int
  type Key = string

  datatype Object = Object(content: Bytes, contentType: string)
  datatype Metrics = Metrics(luminance: real, topLuminance: real, entropy: real)
  datatype Processed = Processed(content: Bytes, contentType: string, metrics: Metrics)

  datatype Branding = Branding(organization: string, key: Option<Key>, metrics: Option<Metrics>, isDeleted: bool)

  /** `_process_background_image`: None is its own graceful refusal. */
  datatype Library = Library(process: Bytes -> Option<Processed>)

  /** How storage answers one request. A `StorageError` is the exception the script catches; any
      other exception escapes it. A failing upload may still have left an object behind. */
  datatype Download = Answers | DownloadError | DownloadRaises
  datatype Upload = Stores | UploadError(left: Option<Object>) | UploadRaises(left: Option<Object>)

  /** One selected row and what the outside world does while it is processed. */
  datatype Job = Job(id: Id, uuid: string, download: Download, upload: Upload)

  datatype Status = Skipped | Failed | Unprocessable | WouldWrite | Wrote
  datatype Outcome = Outcome(
    id: Id, organization: string, oldKey: Key, newKey: Option<Key>, before: nat, after: nat, status: Status)

  // ----- keys -----

  predicate EndsWith(s: string, suffix: string) {
    |suffix| <= |s| && s[|s| - |suffix|..] == suffix
  }

  predicate IsWebp(k: Key) { EndsWith(LowerAll(k), ".webp") }

  function NewKey(organization: string, uuid: string): (k: Key)
    ensures IsWebp(k)
  {
    var stem := "branding/" + organization + "/background/" + uuid;
    var k := stem + ".webp";
    assert LowerAll(k)[|k| - 5..] == ".webp";
    k
  }

  function OldKey(row: Branding): Key { match row.key case Some(k) => k case None => "" }

  // ----- one row -----

  /** The row reaches its upload request. */
  predicate Uploads(lib: Library, objects: map<Key, Object>, row: Branding, job: Job) {
    && !IsWebp(OldKey(row)) && job.download.Answers? && OldKey(row) in objects
    && lib.process(objects[OldKey(row)].content).Some?
  }

  /** An exception the script does not catch is raised while this row is processed. */
  predicate Raises(lib: Library, objects: map<Key, Object>, row: Branding, job: Job, dry: bool) {
    || (!IsWebp(OldKey(row)) && job.download.DownloadRaises?)
    || (!dry && Uploads(lib, objects, row, job) && job.upload.UploadRaises?)
  }

  /** The outcome recorded for a row, given the objects a download can see, when no exception
      escapes. */
  function Judge(lib: Library, objects: map<Key, Object>, row: Branding, job: Job, dry: bool): Outcome {
    var stored := OldKey(row);
    if IsWebp(stored) then Outcome(job.id, row.organization, stored, None, 0, 0, Skipped)
    else if !job.download.Answers? || stored !in objects then
      Outcome(job.id, row.organization, stored, None, 0, 0, Failed)
    else
      var before := |objects[stored].content|;
      match lib.process(objects[stored].content)
      case None => Outcome(job.id, row.organization, stored, None, before, before, Unprocessable)
      case Some(p) =>
        Outcome(job.id, row.organization, stored, Some(NewKey(row.organization, job.uuid)), before, |p.content|,
                if dry then WouldWrite else if job.upload.Stores? then Wrote else Failed)
  }

  function Image(lib: Library, objects: map<Key, Object>, row: Branding): Processed
    requires OldKey(row) in objects && lib.process(objects[OldKey(row)].content).Some?
  {
    lib.process(objects[OldKey(row)].content).value
  }

  /** The row after a successful upload. */
  function Converted(lib: Library, objects: map<Key, Object>, row: Branding, job: Job): Branding
    requires Uploads(lib, objects, row, job)
  {
    row.(key := Some(NewKey(row.organization, job.uuid)), metrics := Some(Image(lib, objects, row).metrics))
  }

  function NewObject(lib: Library, objects: map<Key, Object>, row: Branding): Object
    requires OldKey(row) in objects && lib.process(objects[OldKey(row)].content).Some?
  {
    var p := Image(lib, objects, row);
    Object(p.content, p.contentType)
  }

  // ----- the two stores -----

  datatype State = State(objects: map<Key, Object>, committed: map<Id, Branding>, pending: map<Id, Branding>)

  datatype Event = Put(key: Key, content: Object) | SetRow(id: Id, row: Branding) | Commit | Rollback

  function Apply(st: State, e: Event): State {
    match e
    case Put(k, o) => st.(objects := st.objects[k := o])
    case SetRow(id, row) => st.(pending := st.pending[id := row])
    case Commit => st.(committed := st.pending)
    case Rollback => st.(pending := st.committed)
  }

  function Run(st: State, es: seq<Event>): State {
    if es == [] then st else Apply(Run(st, es[..|es| - 1]), es[|es| - 1])
  }

  lemma RunStep(st: State, es: seq<Event>, e: Event)
    ensures Run(st, es + [e]) == Apply(Run(st, es), e)
  {
  }

  function OneCalls(lib: Library, st: State, job: Job, dry: bool): seq<Event>
    requires job.id in st.committed
  {
    var row := st.committed[job.id];
    if dry || !Uploads(lib, st.objects, row, job) then []
    else
      var key := NewKey(row.organization, job.uuid);
      match job.upload
      case Stores => [Put(key, NewObject(lib, st.objects, row)), SetRow(job.id, Converted(lib, st.objects, row, job))]
      case UploadError(left) => if left.Some? then [Put(key, left.value)] else []
      case UploadRaises(left) => if left.Some? then [Put(key, left.value)] else []
  }

  /** The rows `run` selects, in whatever order the database returned them. */
  ghost predicate Selection(rows: map<Id, Branding>, jobs: seq<Job>) {
    && (forall i :: 0 <= i < |jobs| ==>
          jobs[i].id in rows && rows[jobs[i].id].key.Some? && !rows[jobs[i].id].isDeleted)
    && (forall i, j :: 0 <= i < j < |jobs| ==> jobs[i].id != jobs[j].id)
  }

  predicate Escapes(lib: Library, st: State, job: Job, dry: bool)
    requires job.id in st.committed
  {
    Raises(lib, st.objects, st.committed[job.id], job, dry)
  }

  /** No exception escapes while the rows from `n` on are processed. */
  ghost predicate Clean(lib: Library, st: State, jobs: seq<Job>, n: nat, dry: bool)
    requires n <= |jobs| && Selection(st.committed, jobs)
    decreases |jobs| - n
  {
    n == |jobs| || (!Escapes(lib, st, jobs[n], dry) && Clean(lib, st, jobs, n + 1, dry))
  }

  /** The calls for the rows from `n` on; the first exception that escapes ends them. */
  ghost function RowCalls(lib: Library, st: State, jobs: seq<Job>, n: nat, dry: bool): seq<Event>
    requires n <= |jobs| && Selection(st.committed, jobs)
    decreases |jobs| - n
  {
    if n == |jobs| then []
    else
      OneCalls(lib, st, jobs[n], dry)
      + (if Escapes(lib, st, jobs[n], dry) then [] else RowCalls(lib, st, jobs, n + 1, dry))
  }

  /** Leaving the session commits only at the end of a live run in which nothing escaped. */
  ghost predicate Commits(lib: Library, st: State, jobs: seq<Job>, dry: bool, commitOk: bool)
    requires Selection(st.committed, jobs)
  {
    !dry && commitOk && Clean(lib, st, jobs, 0, dry)
  }

  ghost function RunCalls(lib: Library, st: State, jobs: seq<Job>, dry: bool, commitOk: bool): seq<Event>
    requires Selection(st.committed, jobs)
  {
    RowCalls(lib, st, jobs, 0, dry) + [if Commits(lib, st, jobs, dry, commitOk) then Commit else Rollback]
  }
}

module BackfillSafety {
  import opened Wrappers
  import opened Backfill

  function KeyOf(st: State, job: Job): Key
    requires job.id in st.committed
  {
    NewKey(st.committed[job.id].organization, job.uuid)
  }

  /** The new keys are unused and all different: what `uuid4` is relied on for. */
  ghost predicate FreshKeys(st: State, jobs: seq<Job>)
    requires Selection(st.committed, jobs)
  {
    && (forall i :: 0 <= i < |jobs| ==> KeyOf(st, jobs[i]) !in st.objects)
    && (forall i, j :: 0 <= i < j < |jobs| ==> KeyOf(st, jobs[i]) != KeyOf(st, jobs[j]))
  }

  /** `row` is job `j`'s converted row and its object is stored. */
  ghost predicate ConvertedBy(lib: Library, st0: State, job: Job, row: Branding, objects: map<Key, Object>)
    requires job.id in st0.committed
  {
    var was := st0.committed[job.id];
    && Uploads(lib, st0.objects, was, job) && row == Converted(lib, st0.objects, was, job)
    && KeyOf(st0, job) in objects && objects[KeyOf(st0, job)] == NewObject(lib, st0.objects, was)
  }

  /** A row as it was, or converted by one of the first `n` jobs with its new object in place. */
  ghost predicate RowSafe(lib: Library, st0: State, jobs: seq<Job>, n: nat, id: Id, row: Branding,
                          objects: map<Key, Object>)
    requires n <= |jobs| && Selection(st0.committed, jobs) && id in st0.committed
  {
    row == st0.committed[id] ||
    exists j :: 0 <= j < n && jobs[j].id == id && ConvertedBy(lib, st0, jobs[j], row, objects)
  }

  ghost predicate Safe(lib: Library, st0: State, jobs: seq<Job>, n: nat, st: State)
    requires n <= |jobs| && Selection(st0.committed, jobs)
  {
    && st.committed.Keys == st.pending.Keys == st0.committed.Keys
    && (forall k :: k in st0.objects ==> k in st.objects && st.objects[k] == st0.objects[k])
    && (forall id :: id in st0.committed ==>
          && RowSafe(lib, st0, jobs, n, id, st.committed[id], st.objects)
          && RowSafe(lib, st0, jobs, n, id, st.pending[id], st.objects))
  }

  /** Safe now and after every shorter sequence of calls. */
  ghost predicate SafeThroughout(lib: Library, st0: State, jobs: seq<Job>, n: nat, es: seq<Event>)
    requires n <= |jobs| && Selection(st0.committed, jobs)
    decreases es
  {
    Safe(lib, st0, jobs, n, Run(st0, es)) && (es != [] ==> SafeThroughout(lib, st0, jobs, n, es[..|es| - 1]))
  }

  lemma ThroughoutStep(lib: Library, st0: State, jobs: seq<Job>, n: nat, es: seq<Event>, e: Event)
    requires n <= |jobs| && Selection(st0.committed, jobs) && SafeThroughout(lib, st0, jobs, n, es)
    requires Safe(lib, st0, jobs, n, Apply(Run(st0, es), e))
    ensures SafeThroughout(lib, st0, jobs, n, es + [e])
  {
  }

  lemma {:induction false} ThroughoutPrefix(lib: Library, st0: State, jobs: seq<Job>, n: nat, es: seq<Event>, k: nat)
    requires n <= |jobs| && Selection(st0.committed, jobs) && SafeThroughout(lib, st0, jobs, n, es) && k <= |es|
    ensures Safe(lib, st0, jobs, n, Run(st0, es[..k]))
    decreases es
  {
    if k == |es| {
      assert es[..k] == es;
    } else {
      ThroughoutPrefix(lib, st0, jobs, n, es[..|es| - 1], k);
      assert es[..|es| - 1][..k] == es[..k];
    }
  }

  lemma {:induction false} ThroughoutWiden(lib: Library, st0: State, jobs: seq<Job>, n: nat, es: seq<Event>)
    requires n < |jobs| && Selection(st0.committed, jobs) && SafeThroughout(lib, st0, jobs, n, es)
    ensures SafeThroughout(lib, st0, jobs, n + 1, es)
    decreases es
  {
    SafeWiden(lib, st0, jobs, n, Run(st0, es));
    if es != [] {
      ThroughoutWiden(lib, st0, jobs, n, es[..|es| - 1]);
    }
  }

  lemma SafeWiden(lib: Library, st0: State, jobs: seq<Job>, n: nat, st: State)
    requires n < |jobs| && Selection(st0.committed, jobs) && Safe(lib, st0, jobs, n, st)
    ensures Safe(lib, st0, jobs, n + 1, st)
  {
  }

  /** Writing the next job's fresh key disturbs neither an old object nor a converted row. */
  lemma PutSafe(lib: Library, st0: State, jobs: seq<Job>, n: nat, st: State, o: Object)
    requires n < |jobs| && Selection(st0.committed, jobs) && FreshKeys(st0, jobs) && Safe(lib, st0, jobs, n, st)
    ensures Safe(lib, st0, jobs, n, Apply(st, Put(KeyOf(st0, jobs[n]), o)))
  {
    var key := KeyOf(st0, jobs[n]);
    var next := Apply(st, Put(key, o));
    forall id, row | id in st0.committed && RowSafe(lib, st0, jobs, n, id, row, st.objects)
      ensures RowSafe(lib, st0, jobs, n, id, row, next.objects)
    {
      if row != st0.committed[id] {
        var j :| 0 <= j < n && jobs[j].id == id && ConvertedBy(lib, st0, jobs[j], row, st.objects);
        assert KeyOf(st0, jobs[j]) != key;
        assert ConvertedBy(lib, st0, jobs[j], row, next.objects);
      }
    }
  }

  /** After the first `n` rows: the pending table is exactly each row's own result. */
  ghost predicate PendingIs(lib: Library, st0: State, jobs: seq<Job>, n: nat, st: State, dry: bool)
    requires n <= |jobs| && Selection(st0.committed, jobs)
  {
    && st.committed == st0.committed
    && st.pending.Keys == st0.committed.Keys
    && (forall i :: 0 <= i < n ==> st.pending[jobs[i].id] == Result(lib, st0, jobs[i], dry))
    && (forall id :: id in st0.committed && (forall i :: 0 <= i < n ==> jobs[i].id != id) ==>
          st.pending[id] == st0.committed[id])
  }

  /** The row a job ends with, which depends on that row and that job alone. */
  function Result(lib: Library, st0: State, job: Job, dry: bool): Branding
    requires job.id in st0.committed
  {
    var row := st0.committed[job.id];
    if !dry && Uploads(lib, st0.objects, row, job) && job.upload.Stores? then Converted(lib, st0.objects, row, job)
    else row
  }

  /** A job whose row stays as it was extends the pending table's description by one. */
  lemma PendingWiden(lib: Library, st0: State, jobs: seq<Job>, n: nat, st: State, st': State, dry: bool)
    requires n < |jobs| && Selection(st0.committed, jobs) && PendingIs(lib, st0, jobs, n, st, dry)
    requires st'.pending == st.pending && st'.committed == st.committed
    requires Result(lib, st0, jobs[n], dry) == st0.committed[jobs[n].id]
    ensures PendingIs(lib, st0, jobs, n + 1, st', dry)
  {
  }

  lemma PutStep(lib: Library, st0: State, jobs: seq<Job>, n: nat, es: seq<Event>, o: Object)
    requires n < |jobs| && Selection(st0.committed, jobs) && FreshKeys(st0, jobs)
    requires SafeThroughout(lib, st0, jobs, n, es)
    ensures
      var put := Put(KeyOf(st0, jobs[n]), o);
      SafeThroughout(lib, st0, jobs, n, es + [put]) && Run(st0, es + [put]) == Apply(Run(st0, es), put)
  {
    PutSafe(lib, st0, jobs, n, Run(st0, es), o);
    ThroughoutStep(lib, st0, jobs, n, es, Put(KeyOf(st0, jobs[n]), o));
    RunStep(st0, es, Put(KeyOf(st0, jobs[n]), o));
  }

  /** The upload has been made and the row not yet changed. */
  ghost predicate Uploaded(lib: Library, st0: State, jobs: seq<Job>, n: nat, st: State)
    requires n < |jobs| && Selection(st0.committed, jobs)
    requires Uploads(lib, st0.objects, st0.committed[jobs[n].id], jobs[n])
  {
    && PendingIs(lib, st0, jobs, n, st, false)
    && KeyOf(st0, jobs[n]) in st.objects
    && st.objects[KeyOf(st0, jobs[n])] == NewObject(lib, st0.objects, st0.committed[jobs[n].id])
  }

  lemma AfterUpload(lib: Library, st0: State, jobs: seq<Job>, n: nat, st: State)
    requires n < |jobs| && Selection(st0.committed, jobs) && PendingIs(lib, st0, jobs, n, st, false)
    requires Uploads(lib, st0.objects, st0.committed[jobs[n].id], jobs[n])
    ensures
      var put := Put(KeyOf(st0, jobs[n]), NewObject(lib, st0.objects, st0.committed[jobs[n].id]));
      Uploaded(lib, st0, jobs, n, Apply(st, put))
  {
  }

  lemma AfterAssign(lib: Library, st0: State, jobs: seq<Job>, n: nat, es: seq<Event>)
    requires n < |jobs| && Selection(st0.committed, jobs) && SafeThroughout(lib, st0, jobs, n, es)
    requires Uploads(lib, st0.objects, st0.committed[jobs[n].id], jobs[n]) && jobs[n].upload.Stores?
    requires Uploaded(lib, st0, jobs, n, Run(st0, es))
    ensures
      var assign := SetRow(jobs[n].id, Converted(lib, st0.objects, st0.committed[jobs[n].id], jobs[n]));
      && SafeThroughout(lib, st0, jobs, n + 1, es + [assign])
      && PendingIs(lib, st0, jobs, n + 1, Run(st0, es + [assign]), false)
  {
    var assign := SetRow(jobs[n].id, Converted(lib, st0.objects, st0.committed[jobs[n].id], jobs[n]));
    SafeNow(lib, st0, jobs, n, es);
    SetSafe(lib, st0, jobs, n, Run(st0, es), false);
    ThroughoutWiden(lib, st0, jobs, n, es);
    ThroughoutStep(lib, st0, jobs, n + 1, es, assign);
    RunStep(st0, es, assign);
  }

  lemma StoredSafe(lib: Library, st0: State, jobs: seq<Job>, n: nat, es: seq<Event>)
    requires n < |jobs| && Selection(st0.committed, jobs) && FreshKeys(st0, jobs)
    requires SafeThroughout(lib, st0, jobs, n, es) && PendingIs(lib, st0, jobs, n, Run(st0, es), false)
    requires Uploads(lib, st0.objects, st0.committed[jobs[n].id], jobs[n]) && jobs[n].upload.Stores?
    ensures SafeThroughout(lib, st0, jobs, n + 1, es + OneCalls(lib, st0, jobs[n], false))
    ensures PendingIs(lib, st0, jobs, n + 1, Run(st0, es + OneCalls(lib, st0, jobs[n], false)), false)
  {
    var row := st0.committed[jobs[n].id];
    var put := Put(KeyOf(st0, jobs[n]), NewObject(lib, st0.objects, row));
    PutStep(lib, st0, jobs, n, es, put.content);
    AfterUpload(lib, st0, jobs, n, Run(st0, es));
    AfterAssign(lib, st0, jobs, n, es + [put]);
    SplitTwo(es, put, SetRow(jobs[n].id, Converted(lib, st0.objects, row, jobs[n])));
  }

  lemma SplitTwo(es: seq<Event>, a: Event, b: Event)
    ensures es + [a, b] == es + [a] + [b]
  {
  }

  lemma SafeNow(lib: Library, st0: State, jobs: seq<Job>, n: nat, es: seq<Event>)
    requires n <= |jobs| && Selection(st0.committed, jobs) && SafeThroughout(lib, st0, jobs, n, es)
    ensures Safe(lib, st0, jobs, n, Run(st0, es))
  {
  }

  lemma OneSafe(lib: Library, st0: State, jobs: seq<Job>, n: nat, es: seq<Event>, dry: bool)
    requires n < |jobs| && Selection(st0.committed, jobs) && FreshKeys(st0, jobs)
    requires SafeThroughout(lib, st0, jobs, n, es) && PendingIs(lib, st0, jobs, n, Run(st0, es), dry)
    ensures SafeThroughout(lib, st0, jobs, n + 1, es + OneCalls(lib, st0, jobs[n], dry))
    ensures PendingIs(lib, st0, jobs, n + 1, Run(st0, es + OneCalls(lib, st0, jobs[n], dry)), dry)
  {
    var calls := OneCalls(lib, st0, jobs[n], dry);
    if calls == [] {
      assert es + calls == es;
      ThroughoutWiden(lib, st0, jobs, n, es);
      PendingWiden(lib, st0, jobs, n, Run(st0, es), Run(st0, es), dry);
    } else if jobs[n].upload.Stores? {
      StoredSafe(lib, st0, jobs, n, es);
    } else {
      PutStep(lib, st0, jobs, n, es, calls[0].content);
      assert calls == [calls[0]];
      ThroughoutWiden(lib, st0, jobs, n, es + calls);
      PendingWiden(lib, st0, jobs, n, Run(st0, es), Run(st0, es + calls), dry);
    }
  }

  lemma SetSafe(lib: Library, st0: State, jobs: seq<Job>, n: nat, st: State, dry: bool)
    requires n < |jobs| && Selection(st0.committed, jobs) && Safe(lib, st0, jobs, n, st)
    requires PendingIs(lib, st0, jobs, n, st, dry)
    requires
      var job := jobs[n];
      var row := st0.committed[job.id];
      && !dry && job.upload.Stores? && Uploads(lib, st0.objects, row, job)
      && KeyOf(st0, job) in st.objects && st.objects[KeyOf(st0, job)] == NewObject(lib, st0.objects, row)
    ensures
      var job := jobs[n];
      var next := Apply(st, SetRow(job.id, Converted(lib, st0.objects, st0.committed[job.id], job)));
      Safe(lib, st0, jobs, n + 1, next) && PendingIs(lib, st0, jobs, n + 1, next, dry)
  {
    var job := jobs[n];
    var next := Apply(st, SetRow(job.id, Converted(lib, st0.objects, st0.committed[job.id], job)));
    SafeWiden(lib, st0, jobs, n, st);
    assert ConvertedBy(lib, st0, jobs[n], next.pending[job.id], next.objects);
    assert RowSafe(lib, st0, jobs, n + 1, job.id, next.pending[job.id], next.objects);
  }

  lemma {:induction false} ThroughoutWidenTo(lib: Library, st0: State, jobs: seq<Job>, n: nat, es: seq<Event>)
    requires n <= |jobs| && Selection(st0.committed, jobs) && SafeThroughout(lib, st0, jobs, n, es)
    ensures SafeThroughout(lib, st0, jobs, |jobs|, es)
    decreases |jobs| - n
  {
    if n < |jobs| {
      ThroughoutWiden(lib, st0, jobs, n, es);
      ThroughoutWidenTo(lib, st0, jobs, n + 1, es);
    }
  }

  /** From a safe point after `n` rows, the rest of the loop is safe, commits nothing, and ends
      with every row's own result unless an exception escapes. */
  lemma {:induction false} RowsSafe(lib: Library, st0: State, jobs: seq<Job>, n: nat, es: seq<Event>, dry: bool)
    requires n <= |jobs| && Selection(st0.committed, jobs) && FreshKeys(st0, jobs)
    requires SafeThroughout(lib, st0, jobs, n, es) && PendingIs(lib, st0, jobs, n, Run(st0, es), dry)
    ensures
      var all := es + RowCalls(lib, st0, jobs, n, dry);
      && SafeThroughout(lib, st0, jobs, |jobs|, all) && Run(st0, all).committed == st0.committed
      && (Clean(lib, st0, jobs, n, dry) ==> PendingIs(lib, st0, jobs, |jobs|, Run(st0, all), dry))
    decreases |jobs| - n
  {
    if n == |jobs| {
      AddNothing(es);
    } else {
      var one := OneCalls(lib, st0, jobs[n], dry);
      OneSafe(lib, st0, jobs, n, es, dry);
      if Escapes(lib, st0, jobs[n], dry) {
        ThroughoutWidenTo(lib, st0, jobs, n + 1, es + one);
        AddNothing(one);
      } else {
        RowsSafe(lib, st0, jobs, n + 1, es + one, dry);
        var rest := RowCalls(lib, st0, jobs, n + 1, dry);
        Associate(es, one, rest);
        assert RowCalls(lib, st0, jobs, n, dry) == one + rest;
      }
    }
  }

  ghost predicate LoopEnds(lib: Library, st0: State, jobs: seq<Job>, dry: bool, st: State)
    requires Selection(st0.committed, jobs)
  {
    && st.committed == st0.committed
    && (Clean(lib, st0, jobs, 0, dry) ==> PendingIs(lib, st0, jobs, |jobs|, st, dry))
  }

  lemma AllRowsSafe(lib: Library, st0: State, jobs: seq<Job>, dry: bool)
    requires Selection(st0.committed, jobs) && FreshKeys(st0, jobs) && st0.pending == st0.committed
    ensures SafeThroughout(lib, st0, jobs, |jobs|, RowCalls(lib, st0, jobs, 0, dry))
    ensures LoopEnds(lib, st0, jobs, dry, Run(st0, RowCalls(lib, st0, jobs, 0, dry)))
  {
    assert SafeThroughout(lib, st0, jobs, 0, []);
    RowsSafe(lib, st0, jobs, 0, [], dry);
    AddNothing(RowCalls(lib, st0, jobs, 0, dry));
  }

  lemma AllRowsEnd(lib: Library, st0: State, jobs: seq<Job>, dry: bool)
    requires Selection(st0.committed, jobs) && FreshKeys(st0, jobs) && st0.pending == st0.committed
    ensures LoopEnds(lib, st0, jobs, dry, Run(st0, RowCalls(lib, st0, jobs, 0, dry)))
  {
    AllRowsSafe(lib, st0, jobs, dry);
  }

  /** `row` names a new object that holds what the processor made of the bytes stored under the
      old key, labelled with the type it gave and carrying its metrics; nothing else changed. */
  ghost predicate Reencoded(lib: Library, was: Branding, before: map<Key, Object>, uuid: string,
                            row: Branding, objects: map<Key, Object>)
  {
    var source := match was.key case Some(k) => k case None => "";
    && source in before
    && var made := lib.process(before[source].content);
       && made.Some?
       && row.key == Some("branding/" + was.organization + "/background/" + uuid + ".webp")
       && row.key.value in objects
       && objects[row.key.value].content == made.value.content
       && objects[row.key.value].contentType == made.value.contentType
       && row.metrics == Some(made.value.metrics)
       && row.organization == was.organization && row.isDeleted == was.isDeleted
  }

  /** Every committed row is as it was, or re-encoded by one of the jobs. */
  ghost predicate Readable(lib: Library, st0: State, jobs: seq<Job>, st: State) {
    forall id :: id in st0.committed ==>
      && id in st.committed
      && (|| st.committed[id] == st0.committed[id]
          || exists j :: 0 <= j < |jobs| && jobs[j].id == id
               && Reencoded(lib, st0.committed[id], st0.objects, jobs[j].uuid, st.committed[id], st.objects))
  }

  lemma ConvertedIsReencoded(lib: Library, st0: State, job: Job, row: Branding, objects: map<Key, Object>)
    requires job.id in st0.committed && ConvertedBy(lib, st0, job, row, objects)
    ensures Reencoded(lib, st0.committed[job.id], st0.objects, job.uuid, row, objects)
  {
  }

  lemma SafeIsReadable(lib: Library, st0: State, jobs: seq<Job>, st: State)
    requires Selection(st0.committed, jobs) && Safe(lib, st0, jobs, |jobs|, st)
    ensures Readable(lib, st0, jobs, st)
  {
    forall id | id in st0.committed && st.committed[id] != st0.committed[id]
      ensures exists j :: 0 <= j < |jobs| && jobs[j].id == id
                && Reencoded(lib, st0.committed[id], st0.objects, jobs[j].uuid, st.committed[id], st.objects)
    {
      assert RowSafe(lib, st0, jobs, |jobs|, id, st.committed[id], st.objects);
      var j :| 0 <= j < |jobs| && jobs[j].id == id && ConvertedBy(lib, st0, jobs[j], st.committed[id], st.objects);
      ConvertedIsReencoded(lib, st0, jobs[j], st.committed[id], st.objects);
    }
  }

  /** Stop the run after any number of calls: each committed row holds its old key, or a new
      key whose stored object is the processed form of the old object; no object that existed
      before has been removed or changed. */
  lemma SafeAtEveryCrash(lib: Library, st0: State, jobs: seq<Job>, dry: bool, commitOk: bool, k: nat)
    requires Selection(st0.committed, jobs) && FreshKeys(st0, jobs) && st0.pending == st0.committed
    requires k <= |RunCalls(lib, st0, jobs, dry, commitOk)|
    ensures
      var st := Run(st0, RunCalls(lib, st0, jobs, dry, commitOk)[..k]);
      Safe(lib, st0, jobs, |jobs|, st) && Readable(lib, st0, jobs, st)
  {
    var es := RowCalls(lib, st0, jobs, 0, dry);
    AllRowsSafe(lib, st0, jobs, dry);
    ThroughoutStep(lib, st0, jobs, |jobs|, es, if Commits(lib, st0, jobs, dry, commitOk) then Commit else Rollback);
    ThroughoutPrefix(lib, st0, jobs, |jobs|, RunCalls(lib, st0, jobs, dry, commitOk), k);
    SafeIsReadable(lib, st0, jobs, Run(st0, RunCalls(lib, st0, jobs, dry, commitOk)[..k]));
  }

  /** The table after a run that committed: each selected row has its own result, whatever
      happened to the others, and every other row is as it was. */
  ghost predicate OwnResults(lib: Library, st0: State, jobs: seq<Job>, rows: map<Id, Branding>)
    requires Selection(st0.committed, jobs)
  {
    PendingIs(lib, st0, jobs, |jobs|, State(st0.objects, st0.committed, rows), false)
  }

  /** What the whole run leaves in the table: nothing new, unless it was live, nothing escaped
      and the commit went through. A rehearsal stores nothing either. */
  lemma RunLeaves(lib: Library, st0: State, jobs: seq<Job>, dry: bool, commitOk: bool)
    requires Selection(st0.committed, jobs) && FreshKeys(st0, jobs) && st0.pending == st0.committed
    ensures
      var end := Run(st0, RunCalls(lib, st0, jobs, dry, commitOk));
      && end.pending == end.committed
      && (if Commits(lib, st0, jobs, dry, commitOk)
          then OwnResults(lib, st0, jobs, end.committed) else end.committed == st0.committed)
      && (dry ==> end.objects == st0.objects)
  {
    var es := RowCalls(lib, st0, jobs, 0, dry);
    AllRowsEnd(lib, st0, jobs, dry);
    RunStep(st0, es, if Commits(lib, st0, jobs, dry, commitOk) then Commit else Rollback);
    LoopThenEnd(lib, st0, jobs, dry, commitOk, Run(st0, es));
    if dry {
      DryCalls(lib, st0, jobs, 0);
    }
  }

  /** In a committed run a selected row changes exactly when its key is not a `.webp` one, its
      object was there and downloaded, the processor accepted it and the upload was stored; and
      then it is re-encoded. */
  lemma RowChangesExactlyWhen(lib: Library, st0: State, jobs: seq<Job>, i: nat)
    requires Selection(st0.committed, jobs) && FreshKeys(st0, jobs) && st0.pending == st0.committed && i < |jobs|
    requires Commits(lib, st0, jobs, false, true)
    ensures
      var id, end := jobs[i].id, Run(st0, RunCalls(lib, st0, jobs, false, true));
      var was := st0.committed[id];
      && id in end.committed
      && (end.committed[id] != was <==>
            && !EndsWith(LowerAll(was.key.value), ".webp")
            && jobs[i].download.Answers? && was.key.value in st0.objects
            && lib.process(st0.objects[was.key.value].content).Some? && jobs[i].upload.Stores?)
      && (end.committed[id] != was ==>
            Reencoded(lib, was, st0.objects, jobs[i].uuid, end.committed[id], end.objects))
  {
    var id, calls := jobs[i].id, RunCalls(lib, st0, jobs, false, true);
    var end := Run(st0, calls);
    RunLeaves(lib, st0, jobs, false, true);
    GainsShow(lib, st0, jobs[i]);
    assert end.committed[id] == Result(lib, st0, jobs[i], false);
    assert calls[..|calls|] == calls;
    SafeAtEveryCrash(lib, st0, jobs, false, true, |calls|);
    if end.committed[id] != st0.committed[id] {
      var j :| 0 <= j < |jobs| && jobs[j].id == id
               && Reencoded(lib, st0.committed[id], st0.objects, jobs[j].uuid, end.committed[id], end.objects);
      assert j == i;
    }
  }

  /** Every row the script's query returns is among the jobs. */
  ghost predicate Complete(rows: map<Id, Branding>, jobs: seq<Job>) {
    forall id :: id in rows && rows[id].key.Some? && !rows[id].isDeleted ==>
      exists i :: 0 <= i < |jobs| && jobs[i].id == id
  }

  /** After a committed run over all of them in which storage answered and stored, every undeleted
      background has a `.webp` key, or is as it was because its object is missing or unusable. */
  lemma NothingOldIsLeft(lib: Library, st0: State, jobs: seq<Job>, id: Id)
    requires Selection(st0.committed, jobs) && FreshKeys(st0, jobs) && st0.pending == st0.committed
    requires Complete(st0.committed, jobs) && Commits(lib, st0, jobs, false, true)
    requires forall i :: 0 <= i < |jobs| ==> jobs[i].download.Answers? && jobs[i].upload.Stores?
    requires id in st0.committed && st0.committed[id].key.Some? && !st0.committed[id].isDeleted
    ensures
      var was, end := st0.committed[id], Run(st0, RunCalls(lib, st0, jobs, false, true)).committed;
      && id in end && end[id].key.Some?
      && (|| EndsWith(LowerAll(end[id].key.value), ".webp")
          || (end[id] == was
              && (was.key.value !in st0.objects || lib.process(st0.objects[was.key.value].content).None?)))
  {
    var i :| 0 <= i < |jobs| && jobs[i].id == id;
    RowChangesExactlyWhen(lib, st0, jobs, i);
    RunLeaves(lib, st0, jobs, false, true);
    var end := Run(st0, RunCalls(lib, st0, jobs, false, true)).committed;
    assert end[jobs[i].id] == Result(lib, st0, jobs[i], false);
    if end[id] != st0.committed[id] {
      assert IsWebp(NewKey(st0.committed[id].organization, jobs[i].uuid));
    }
  }

  lemma LoopThenEnd(lib: Library, st0: State, jobs: seq<Job>, dry: bool, commitOk: bool, st: State)
    requires Selection(st0.committed, jobs) && LoopEnds(lib, st0, jobs, dry, st)
    ensures
      var end := Apply(st, if Commits(lib, st0, jobs, dry, commitOk) then Commit else Rollback);
      && end.pending == end.committed && end.objects == st.objects
      && (if Commits(lib, st0, jobs, dry, commitOk)
          then OwnResults(lib, st0, jobs, end.committed) else end.committed == st0.committed)
  {
  }

  lemma {:induction false} DryCalls(lib: Library, st0: State, jobs: seq<Job>, n: nat)
    requires n <= |jobs| && Selection(st0.committed, jobs)
    ensures RowCalls(lib, st0, jobs, n, true) == []
    decreases |jobs| - n
  {
    if n < |jobs| {
      DryCalls(lib, st0, jobs, n + 1);
    }
  }

  // ----- outcomes -----

  ghost function Outcomes(lib: Library, st: State, jobs: seq<Job>, dry: bool): seq<Outcome>
    requires Selection(st.committed, jobs)
  {
    seq(|jobs|, i requires 0 <= i < |jobs| => Judge(lib, st.objects, st.committed[jobs[i].id], jobs[i], dry))
  }

  /** The row did not need skipping, and its object could not be downloaded, or its new object
      could not be stored. */
  predicate LetDown(lib: Library, objects: map<Key, Object>, row: Branding, job: Job, dry: bool) {
    var key := match row.key case Some(k) => k case None => "";
    && !EndsWith(LowerAll(key), ".webp")
    && (|| !job.download.Answers? || key !in objects
        || (!dry && !job.upload.Stores? && lib.process(objects[key].content).Some?))
  }

  /** Some outcome is a failure exactly when storage let some row down: an image the processor
      refuses is not one. */
  lemma FailsExactlyWhen(lib: Library, st: State, jobs: seq<Job>, dry: bool)
    requires Selection(st.committed, jobs)
    ensures (exists o :: o in Outcomes(lib, st, jobs, dry) && o.status.Failed?) <==>
            exists i :: 0 <= i < |jobs| && LetDown(lib, st.objects, st.committed[jobs[i].id], jobs[i], dry)
  {
    var os := Outcomes(lib, st, jobs, dry);
    forall i | 0 <= i < |jobs|
      ensures os[i].status.Failed? <==> LetDown(lib, st.objects, st.committed[jobs[i].id], jobs[i], dry)
    {
      FailedWhenLetDown(lib, st.objects, st.committed[jobs[i].id], jobs[i], dry);
    }
    if i :| 0 <= i < |jobs| && LetDown(lib, st.objects, st.committed[jobs[i].id], jobs[i], dry) {
      assert os[i] in os && os[i].status.Failed?;
    }
  }

  lemma FailedWhenLetDown(lib: Library, objects: map<Key, Object>, row: Branding, job: Job, dry: bool)
    ensures Judge(lib, objects, row, job, dry).status.Failed? <==> LetDown(lib, objects, row, job, dry)
  {
  }

  /** Something other than a storage error is raised while the row downloads or, live, while its
      processed image uploads. */
  predicate Interrupted(lib: Library, objects: map<Key, Object>, row: Branding, job: Job, dry: bool) {
    var key := match row.key case Some(k) => k case None => "";
    && !EndsWith(LowerAll(key), ".webp")
    && (|| job.download.DownloadRaises?
        || (!dry && job.download.Answers? && key in objects && lib.process(objects[key].content).Some?
            && job.upload.UploadRaises?))
  }

  /** The loop reaches its end exactly when no row is interrupted. */
  lemma {:induction false} CleanExactlyWhen(lib: Library, st: State, jobs: seq<Job>, dry: bool)
    requires Selection(st.committed, jobs)
    ensures Clean(lib, st, jobs, 0, dry) <==>
            forall i :: 0 <= i < |jobs| ==> !Interrupted(lib, st.objects, st.committed[jobs[i].id], jobs[i], dry)
  {
    CleanMeans(lib, st, jobs, 0, dry);
    forall i | 0 <= i < |jobs|
      ensures Escapes(lib, st, jobs[i], dry) <==>
              Interrupted(lib, st.objects, st.committed[jobs[i].id], jobs[i], dry)
    {
      EscapesWhenInterrupted(lib, st.objects, st.committed[jobs[i].id], jobs[i], dry);
    }
  }

  lemma EscapesWhenInterrupted(lib: Library, objects: map<Key, Object>, row: Branding, job: Job, dry: bool)
    ensures Raises(lib, objects, row, job, dry) <==> Interrupted(lib, objects, row, job, dry)
  {
  }

  predicate Counted(o: Outcome) { o.status.Wrote? || o.status.WouldWrite? }

  function Totals(os: seq<Outcome>): (nat, nat) {
    if os == [] then (0, 0)
    else
      var (b, a) := Totals(os[..|os| - 1]);
      var o := os[|os| - 1];
      if Counted(o) then (b + o.before, a + o.after) else (b, a)
  }

  lemma {:induction false} CleanMeans(lib: Library, st: State, jobs: seq<Job>, n: nat, dry: bool)
    requires n <= |jobs| && Selection(st.committed, jobs)
    ensures Clean(lib, st, jobs, n, dry) <==> forall i :: n <= i < |jobs| ==> !Escapes(lib, st, jobs[i], dry)
    decreases |jobs| - n
  {
    if n < |jobs| {
      CleanMeans(lib, st, jobs, n + 1, dry);
    }
  }

  /** Two runs over the same rows that meet the same downloads. Each draws its own new keys. */
  ghost predicate SameWork(rehearsal: seq<Job>, live: seq<Job>) {
    && |rehearsal| == |live|
    && forall i :: 0 <= i < |live| ==> rehearsal[i].id == live[i].id && rehearsal[i].download == live[i].download
  }

  /** The rehearsed outcome of a row is its live outcome, but for the new key and for saying
      that the row would be written. */
  predicate Rehearses(rehearsed: Outcome, live: Outcome) {
    && (rehearsed.newKey.Some? <==> live.newKey.Some?)
    && rehearsed == live.(newKey := rehearsed.newKey, status := if live.status.Wrote? then WouldWrite else live.status)
  }

  lemma OneRehearses(lib: Library, objects: map<Key, Object>, row: Branding, rehearsal: Job, live: Job)
    requires rehearsal.id == live.id && rehearsal.download == live.download && live.upload.Stores?
    ensures Rehearses(Judge(lib, objects, row, rehearsal, true), Judge(lib, objects, row, live, false))
    ensures Raises(lib, objects, row, rehearsal, true) <==> Raises(lib, objects, row, live, false)
  {
  }

  /** A dry run changes nothing at all; the live run after it, drawing other keys and with every
      upload stored, names the same rows, old keys, byte counts and totals, and writes exactly
      the rows the dry run said it would. The two new keys of a row are equal only if the two
      draws are. */
  lemma {:induction false} RehearsalMatches(lib: Library, st0: State, rehearsal: seq<Job>, live: seq<Job>,
                                            commitOk: bool)
    requires Selection(st0.committed, rehearsal) && Selection(st0.committed, live) && st0.pending == st0.committed
    requires SameWork(rehearsal, live) && forall i :: 0 <= i < |live| ==> live[i].upload.Stores?
    ensures Run(st0, RunCalls(lib, st0, rehearsal, true, commitOk)) == st0
    ensures Clean(lib, st0, rehearsal, 0, true) <==> Clean(lib, st0, live, 0, false)
    ensures
      var rehearsed, lived := Outcomes(lib, st0, rehearsal, true), Outcomes(lib, st0, live, false);
      && Totals(rehearsed) == Totals(lived)
      && (forall i :: 0 <= i < |live| ==> Rehearses(rehearsed[i], lived[i]))
      && (forall i :: 0 <= i < |live| ==> (rehearsed[i].status.WouldWrite? <==> lived[i].status.Wrote?))
      && (forall i :: 0 <= i < |live| && rehearsed[i].newKey.Some? && rehearsed[i].newKey == lived[i].newKey ==>
            rehearsal[i].uuid == live[i].uuid)
  {
    DryCalls(lib, st0, rehearsal, 0);
    AddNothing([Rollback]);
    RunStep(st0, [], Rollback);
    RehearsalEscapes(lib, st0, rehearsal, live);
    var rehearsed, lived := Outcomes(lib, st0, rehearsal, true), Outcomes(lib, st0, live, false);
    forall i | 0 <= i < |live|
      ensures Rehearses(rehearsed[i], lived[i]) && (rehearsed[i].status.WouldWrite? <==> lived[i].status.Wrote?)
      ensures rehearsed[i].newKey.Some? && rehearsed[i].newKey == lived[i].newKey ==> rehearsal[i].uuid == live[i].uuid
    {
      var row := st0.committed[live[i].id];
      OneRehearses(lib, st0.objects, row, rehearsal[i], live[i]);
      KeysTellDrawsApart(row.organization, rehearsal[i].uuid, live[i].uuid);
    }
    TotalsAgree(rehearsed, lived);
  }

  lemma KeysTellDrawsApart(organization: string, a: string, b: string)
    ensures NewKey(organization, a) == NewKey(organization, b) ==> a == b
  {
    var head := "branding/" + organization + "/background/";
    assert NewKey(organization, a)[|head|..|head| + |a|] == a;
    assert NewKey(organization, b)[|head|..|head| + |b|] == b;
  }

  lemma RehearsalEscapes(lib: Library, st0: State, rehearsal: seq<Job>, live: seq<Job>)
    requires Selection(st0.committed, rehearsal) && Selection(st0.committed, live)
    requires SameWork(rehearsal, live) && forall i :: 0 <= i < |live| ==> live[i].upload.Stores?
    ensures Clean(lib, st0, rehearsal, 0, true) <==> Clean(lib, st0, live, 0, false)
  {
    CleanMeans(lib, st0, rehearsal, 0, true);
    CleanMeans(lib, st0, live, 0, false);
    forall i | 0 <= i < |live|
      ensures Escapes(lib, st0, rehearsal[i], true) <==> Escapes(lib, st0, live[i], false)
    {
      OneRehearses(lib, st0.objects, st0.committed[live[i].id], rehearsal[i], live[i]);
    }
  }

  lemma {:induction false} TotalsAgree(a: seq<Outcome>, b: seq<Outcome>)
    requires |a| == |b|
    requires forall i :: 0 <= i < |a| ==>
             a[i].before == b[i].before && a[i].after == b[i].after && (Counted(a[i]) <==> Counted(b[i]))
    ensures Totals(a) == Totals(b)
    decreases a
  {
    if a != [] {
      TotalsAgree(a[..|a| - 1], b[..|b| - 1]);
    }
  }

  /** A row written by a committed run is skipped whenever it is judged again, live or not,
      whatever storage does then: its new key ends in `.webp`. */
  lemma WrittenIsSkipped(lib: Library, st0: State, jobs: seq<Job>, i: nat, later: Library, job: Job,
                         objects: map<Key, Object>, dry: bool)
    requires Selection(st0.committed, jobs) && FreshKeys(st0, jobs) && st0.pending == st0.committed && i < |jobs|
    requires Commits(lib, st0, jobs, false, true)
    requires Judge(lib, st0.objects, st0.committed[jobs[i].id], jobs[i], false).status.Wrote?
    ensures
      var end := Run(st0, RunCalls(lib, st0, jobs, false, true));
      && jobs[i].id in end.committed && IsWebp(OldKey(end.committed[jobs[i].id]))
      && var again := Judge(later, objects, end.committed[jobs[i].id], job, dry);
         again.status.Skipped? && again.newKey.None? && !Raises(later, objects, end.committed[jobs[i].id], job, dry)
  {
    RunLeaves(lib, st0, jobs, false, true);
    OutcomeFacts(lib, st0, jobs[i]);
    assert Run(st0, RunCalls(lib, st0, jobs, false, true)).committed[jobs[i].id] == Result(lib, st0, jobs[i], false);
  }

  /** A later run over the table such a run committed, dry or live, committed or not, with any
      selection, storage and processing, skips the row and leaves it as it is. */
  lemma SecondRunSkips(lib: Library, st0: State, jobs: seq<Job>, i: nat, later: Library, st1: State, again: seq<Job>,
                       dry: bool, commitOk: bool)
    requires Selection(st0.committed, jobs) && FreshKeys(st0, jobs) && st0.pending == st0.committed && i < |jobs|
    requires Commits(lib, st0, jobs, false, true)
    requires Judge(lib, st0.objects, st0.committed[jobs[i].id], jobs[i], false).status.Wrote?
    requires st1.pending == st1.committed == Run(st0, RunCalls(lib, st0, jobs, false, true)).committed
    requires Selection(st1.committed, again) && FreshKeys(st1, again)
    ensures
      var id, end := jobs[i].id, Run(st1, RunCalls(later, st1, again, dry, commitOk));
      && id in st1.committed && id in end.committed && end.committed[id] == st1.committed[id]
      && forall j :: 0 <= j < |again| && again[j].id == id ==> Outcomes(later, st1, again, dry)[j].status.Skipped?
  {
    var id := jobs[i].id;
    RunLeaves(later, st1, again, dry, commitOk);
    WrittenIsSkipped(lib, st0, jobs, i, later, jobs[i], st1.objects, dry);
    forall j | 0 <= j < |again| && again[j].id == id
      ensures Outcomes(later, st1, again, dry)[j].status.Skipped?
      ensures Result(later, st1, again[j], false) == st1.committed[id]
    {
      WrittenIsSkipped(lib, st0, jobs, i, later, again[j], st1.objects, dry);
    }
  }

  /** The documented rollback: put each written row's recorded old key back. */
  ghost function RestoreKeys(rows: map<Id, Branding>, os: seq<Outcome>): map<Id, Branding> {
    if os == [] then rows
    else
      var before := RestoreKeys(rows, os[..|os| - 1]);
      var o := os[|os| - 1];
      if o.status.Wrote? && o.id in before then before[o.id := before[o.id].(key := Some(o.oldKey))] else before
  }

  lemma {:induction false} RestoreKeysRow(rows: map<Id, Branding>, os: seq<Outcome>, id: Id)
    requires id in rows
    requires forall i, j :: 0 <= i < j < |os| ==> os[i].id != os[j].id
    ensures RestoreKeys(rows, os).Keys == rows.Keys
    ensures (forall i :: 0 <= i < |os| && os[i].status.Wrote? ==> os[i].id != id) ==>
            RestoreKeys(rows, os)[id] == rows[id]
    ensures forall i :: 0 <= i < |os| && os[i].status.Wrote? && os[i].id == id ==>
              RestoreKeys(rows, os)[id] == rows[id].(key := Some(os[i].oldKey))
    decreases os
  {
    if os != [] {
      var n := |os| - 1;
      RestoreKeysRow(rows, os[..n], id);
      assert forall i :: 0 <= i < n ==> os[..n][i] == os[i];
    }
  }

  lemma OutcomeFacts(lib: Library, st0: State, job: Job)
    requires job.id in st0.committed
    ensures
      var o := Judge(lib, st0.objects, st0.committed[job.id], job, false);
      && o.id == job.id && o.oldKey == OldKey(st0.committed[job.id])
      && (o.status.Wrote? <==> Uploads(lib, st0.objects, st0.committed[job.id], job) && job.upload.Stores?)
  {
  }

  lemma {:induction false} RestoresKey(rows: map<Id, Branding>, os: seq<Outcome>, id: Id, key: Option<Key>)
    requires id in rows && forall i, j :: 0 <= i < j < |os| ==> os[i].id != os[j].id
    requires forall i :: 0 <= i < |os| && os[i].status.Wrote? && os[i].id == id ==> Some(os[i].oldKey) == key
    requires (forall i :: 0 <= i < |os| && os[i].status.Wrote? ==> os[i].id != id) ==> rows[id].key == key
    ensures id in RestoreKeys(rows, os) && RestoreKeys(rows, os)[id].key == key
  {
    RestoreKeysRow(rows, os, id);
  }

  lemma RestoresOneKey(lib: Library, st0: State, jobs: seq<Job>, rows: map<Id, Branding>, id: Id)
    requires Selection(st0.committed, jobs) && id in st0.committed
    requires OwnResults(lib, st0, jobs, rows)
    ensures
      var restored := RestoreKeys(rows, Outcomes(lib, st0, jobs, false));
      id in restored && restored[id].key == st0.committed[id].key
  {
    var os := Outcomes(lib, st0, jobs, false);
    forall i | 0 <= i < |os|
      ensures os[i].id == jobs[i].id
      ensures os[i].id == id ==> if os[i].status.Wrote? then Some(os[i].oldKey) == st0.committed[id].key
                                 else rows[id].key == st0.committed[id].key
    {
      OutcomeFacts(lib, st0, jobs[i]);
      assert rows[jobs[i].id] == Result(lib, st0, jobs[i], false);
    }
    RestoresKey(rows, os, id, st0.committed[id].key);
  }

  /** After a committed run, restoring the recorded keys gives back the original key column,
      and every object stored before the run is still there, unchanged. */
  lemma RollbackRestores(lib: Library, st0: State, jobs: seq<Job>)
    requires Selection(st0.committed, jobs) && FreshKeys(st0, jobs) && st0.pending == st0.committed
    requires Commits(lib, st0, jobs, false, true)
    ensures
      var end := Run(st0, RunCalls(lib, st0, jobs, false, true));
      var restored := RestoreKeys(end.committed, Outcomes(lib, st0, jobs, false));
      && (forall id :: id in st0.committed ==> id in restored && restored[id].key == st0.committed[id].key)
      && (forall k :: k in st0.objects ==> k in end.objects && end.objects[k] == st0.objects[k])
  {
    var calls := RunCalls(lib, st0, jobs, false, true);
    var end := Run(st0, calls);
    RunLeaves(lib, st0, jobs, false, true);
    assert calls[..|calls|] == calls;
    SafeAtEveryCrash(lib, st0, jobs, false, true, |calls|);
    forall id | id in st0.committed
      ensures
        var restored := RestoreKeys(end.committed, Outcomes(lib, st0, jobs, false));
        id in restored && restored[id].key == st0.committed[id].key
    {
      RestoresOneKey(lib, st0, jobs, end.committed, id);
    }
  }

  /** The row has something to gain: it reaches its upload and the upload is stored. */
  predicate Gains(lib: Library, st0: State, job: Job)
    requires job.id in st0.committed
  {
    Uploads(lib, st0.objects, st0.committed[job.id], job) && job.upload.Stores?
  }

  lemma GainsShow(lib: Library, st0: State, job: Job)
    requires job.id in st0.committed
    ensures Gains(lib, st0, job) <==> Result(lib, st0, job, false) != st0.committed[job.id]
  {
    if Gains(lib, st0, job) {
      assert IsWebp(OldKey(Result(lib, st0, job, false)));
    }
  }

  /** "Failure is per-organization" covers the storage errors the script catches. Any other
      exception reaches every row: all selected rows end with their own results exactly when no
      row meets an exception the script does not catch, or no row had anything to gain. */
  lemma FailureIsPerRowExactlyWhen(lib: Library, st0: State, jobs: seq<Job>)
    requires Selection(st0.committed, jobs) && FreshKeys(st0, jobs) && st0.pending == st0.committed
    ensures
      var end := Run(st0, RunCalls(lib, st0, jobs, false, true));
      end.committed.Keys == st0.committed.Keys &&
      ((forall i :: 0 <= i < |jobs| ==> end.committed[jobs[i].id] == Result(lib, st0, jobs[i], false)) <==>
       (forall i :: 0 <= i < |jobs| ==> !Escapes(lib, st0, jobs[i], false)) ||
       (forall i :: 0 <= i < |jobs| ==> !Gains(lib, st0, jobs[i])))
  {
    RunLeaves(lib, st0, jobs, false, true);
    CleanMeans(lib, st0, jobs, 0, false);
    forall i | 0 <= i < |jobs|
      ensures Gains(lib, st0, jobs[i]) <==> Result(lib, st0, jobs[i], false) != st0.committed[jobs[i].id]
    {
      GainsShow(lib, st0, jobs[i]);
    }
  }

  /** The failing family has a member: the first image converts, the second row's download meets
      an exception other than a storage error, and the first row ends as it began although its
      new object is stored. */
  lemma ConvertedRowIsLost() returns (lib: Library, st0: State, jobs: seq<Job>)
    ensures Selection(st0.committed, jobs) && FreshKeys(st0, jobs) && st0.pending == st0.committed && |jobs| == 2
    ensures Gains(lib, st0, jobs[0]) && !Escapes(lib, st0, jobs[0], false) && jobs[1].download.DownloadRaises?
    ensures
      var end := Run(st0, RunCalls(lib, st0, jobs, false, true));
      && end.committed == st0.committed && end.committed[jobs[0].id] != Result(lib, st0, jobs[0], false)
      && KeyOf(st0, jobs[0]) in end.objects
  {
    NotWebp("1.jpg");
    NotWebp("2.jpg");
    KeyEnds("a", "u");
    KeyEnds("b", "v");
    lib, st0, jobs := LostExample("a", "b", "u", "v", "1.jpg", "2.jpg");
  }

  lemma LostExample(a: string, b: string, u: string, v: string, first: Key, second: Key)
    returns (lib: Library, st0: State, jobs: seq<Job>)
    requires !IsWebp(first) && !IsWebp(second) && NewKey(a, u) != NewKey(b, v)
    ensures Selection(st0.committed, jobs) && FreshKeys(st0, jobs) && st0.pending == st0.committed && |jobs| == 2
    ensures Gains(lib, st0, jobs[0]) && !Escapes(lib, st0, jobs[0], false) && jobs[1].download.DownloadRaises?
    ensures
      var end := Run(st0, RunCalls(lib, st0, jobs, false, true));
      && end.committed == st0.committed && end.committed[jobs[0].id] != Result(lib, st0, jobs[0], false)
      && KeyOf(st0, jobs[0]) in end.objects
  {
    lib := Library(content => Some(Processed(content, "", Metrics(0.0, 0.0, 0.0))));
    var rows := map[1 := Branding(a, Some(first), None, false), 2 := Branding(b, Some(second), None, false)];
    st0 := State(map[first := Object([7], "")], rows, rows);
    jobs := [Job(1, u, Answers, Stores), Job(2, v, DownloadRaises, Stores)];
    LostRun(lib, st0, jobs);
  }

  lemma NotWebp(k: Key)
    requires |k| == 5 && k[4] == 'g'
    ensures !IsWebp(k)
  {
    assert LowerAll(k)[|k| - 5..][4] == 'g';
  }

  lemma KeyEnds(organization: string, uuid: string)
    requires |organization| == 1
    ensures |NewKey(organization, uuid)| > 5 && NewKey(organization, uuid)[9] == organization[0]
  {
  }

  lemma LostRun(lib: Library, st0: State, jobs: seq<Job>)
    requires Selection(st0.committed, jobs) && FreshKeys(st0, jobs) && st0.pending == st0.committed && |jobs| == 2
    requires Gains(lib, st0, jobs[0]) && Escapes(lib, st0, jobs[1], false) && jobs[1].download.DownloadRaises?
    ensures
      var end := Run(st0, RunCalls(lib, st0, jobs, false, true));
      && end.committed == st0.committed && end.committed[jobs[0].id] != Result(lib, st0, jobs[0], false)
      && KeyOf(st0, jobs[0]) in end.objects
  {
    RunLeaves(lib, st0, jobs, false, true);
    CleanMeans(lib, st0, jobs, 0, false);
    GainsShow(lib, st0, jobs[0]);
    var row := st0.committed[jobs[0].id];
    var put := Put(KeyOf(st0, jobs[0]), NewObject(lib, st0.objects, row));
    var set_ := SetRow(jobs[0].id, Converted(lib, st0.objects, row, jobs[0]));
    assert RowCalls(lib, st0, jobs, 1, false) == OneCalls(lib, st0, jobs[1], false) + [] == [];
    assert RowCalls(lib, st0, jobs, 0, false) == [put, set_];
    assert RunCalls(lib, st0, jobs, false, true) == [put] + [set_] + [Rollback];
    RunStep(st0, [], put);
    RunStep(st0, [put], set_);
    RunStep(st0, [put] + [set_], Rollback);
    AddNothing([put]);
  }
}

/** The script as written: ORM rows changed in place, one commit at the end. */
module BackfillScript {
  import opened Wrappers
  import opened Backfill
  import opened BackfillSafety

  class Session {
    var objects: map<Key, Object>
    var committed: map<Id, Branding>
    var pending: map<Id, Branding>
    ghost var log: seq<Event>
    ghost const start: State

    ghost function Now(): State reads this { State(objects, committed, pending) }

    ghost predicate Valid() reads this { Now() == Run(start, log) }

    constructor (objects: map<Key, Object>, rows: map<Id, Branding>)
      ensures Valid() && log == [] && start == State(objects, rows, rows)
    {
      this.objects, this.committed, this.pending := objects, rows, rows;
      log := [];
      start := State(objects, rows, rows);
    }

    method Do(e: Event)
      requires Valid()
      modifies this
      ensures Valid() && log == old(log) + [e] && Now() == Apply(old(Now()), e)
    {
      RunStep(start, log, e);
      match e {
        case Put(k, o) => objects := objects[k := o];
        case SetRow(id, row) => pending := pending[id := row];
        case Commit => committed := pending;
        case Rollback => pending := committed;
      }
      log := log + [e];
    }

    /** Uploads go to `.webp` keys only, so a download still sees what the run started with. */
    ghost predicate SourcesIntact() reads this {
      forall k :: !IsWebp(k) ==>
          (k in objects <==> k in start.objects) && (k in objects ==> objects[k] == start.objects[k])
    }

    /** The upload request and, only once it is stored, the row's new columns. */
    method Store(job: Job, branding: Branding, key: Key, image: Processed)
      requires Valid()
      modifies this
      ensures Valid() && committed == old(committed)
      ensures job.upload.Stores? ==>
                && log == old(log) + [Put(key, Object(image.content, image.contentType)),
                                      SetRow(job.id, branding.(key := Some(key), metrics := Some(image.metrics)))]
                && key in objects && objects[key] == Object(image.content, image.contentType)
                && pending == old(pending)[job.id := branding.(key := Some(key), metrics := Some(image.metrics))]
      ensures !job.upload.Stores? ==>
                && log == old(log) + (if job.upload.left.Some? then [Put(key, job.upload.left.value)] else [])
                && pending == old(pending)
      ensures forall k :: k != key ==>
                (k in objects <==> k in old(objects)) && (k in objects ==> objects[k] == old(objects)[k])
    {
      match job.upload {
        case Stores =>
          Do(Put(key, Object(image.content, image.contentType)));
          Do(SetRow(job.id, branding.(key := Some(key), metrics := Some(image.metrics))));
        case UploadError(left) =>
          if left.Some? { Do(Put(key, left.value)); }
        case UploadRaises(left) =>
          if left.Some? { Do(Put(key, left.value)); }
      }
    }

    /** `_backfill_one`. None is an exception that escapes it. */
    method BackfillOne(lib: Library, job: Job, dry: bool) returns (r: Option<Outcome>)
      requires Valid() && SourcesIntact() && committed == start.committed
      requires job.id in pending && job.id in start.committed && pending[job.id] == start.committed[job.id]
      modifies this
      ensures Valid() && SourcesIntact() && committed == start.committed
      ensures r.None? <==> Escapes(lib, start, job, dry)
      ensures r.Some? ==> r.value == Judge(lib, start.objects, start.committed[job.id], job, dry)
      ensures log == old(log) + OneCalls(lib, start, job, dry)
      ensures forall id :: id != job.id ==>
                (id in pending <==> id in old(pending)) && (id in pending ==> pending[id] == old(pending)[id])
      ensures job.id in pending
      ensures if r.Some? && r.value.status.Wrote? then
                && Reencoded(lib, old(pending)[job.id], start.objects, job.uuid, pending[job.id], objects)
                && r.value.newKey == pending[job.id].key && r.value.oldKey == OldKey(old(pending)[job.id])
                && r.value.before == |start.objects[r.value.oldKey].content|
                && r.value.after == |objects[pending[job.id].key.value].content|
              else pending[job.id] == old(pending)[job.id]
    {
      var branding := pending[job.id];
      var stored := match branding.key case Some(k) => k case None => "";
      var failed := Outcome(job.id, branding.organization, stored, None, 0, 0, Failed);
      if EndsWith(LowerAll(stored), ".webp") {
        return Some(failed.(status := Skipped));
      }
      if job.download.DownloadRaises? {
        return None;
      }
      if job.download.DownloadError? || stored !in objects {
        return Some(failed);
      }
      var content := objects[stored].content;
      var processed := lib.process(content);
      if processed.None? {
        return Some(failed.(before := |content|, after := |content|, status := Unprocessable));
      }
      var image := processed.value;
      var key := NewKey(branding.organization, job.uuid);
      var made := Outcome(job.id, branding.organization, stored, Some(key), |content|, |image.content|, Wrote);
      if dry {
        return Some(made.(status := WouldWrite));
      }
      Store(job, branding, key, image);
      match job.upload {
        case Stores => r := Some(made);
        case UploadError(_) => r := Some(made.(status := Failed));
        case UploadRaises(_) => r := None;
      }
    }

    /** The loop of `run`. */
    method Rows(lib: Library, jobs: seq<Job>, dry: bool) returns (ok: bool, outcomes: seq<Outcome>)
      requires Valid() && log == [] && Now() == start && start.pending == start.committed
               && Selection(start.committed, jobs)
      modifies this
      ensures Valid() && log == RowCalls(lib, start, jobs, 0, dry)
      ensures ok <==> Clean(lib, start, jobs, 0, dry)
      ensures ok ==> outcomes == Outcomes(lib, start, jobs, dry)
    {
      outcomes := [];
      ghost var record := Outcomes(lib, start, jobs, dry);
      for i := 0 to |jobs|
        invariant Valid() && SourcesIntact() && committed == start.committed
        invariant Clean(lib, start, jobs, 0, dry) <==> Clean(lib, start, jobs, i, dry)
        invariant RowCalls(lib, start, jobs, 0, dry) == log + RowCalls(lib, start, jobs, i, dry)
        invariant forall k :: i <= k < |jobs| ==>
                  jobs[k].id in pending && pending[jobs[k].id] == start.committed[jobs[k].id]
        invariant outcomes == record[..i]
      {
        ghost var before, one, rest := log, OneCalls(lib, start, jobs[i], dry), RowCalls(lib, start, jobs, i + 1, dry);
        Associate(before, one, rest);
        AddNothing(one);
        var r := BackfillOne(lib, jobs[i], dry);
        if r.None? {
          ok := false;
          return;
        }
        OneMore(record, i);
        outcomes := outcomes + [r.value];
      }
      AddNothing(log);
      ok := true;
    }

    /** `run`: exit status None when an exception escapes, else 1 exactly when a row failed.
        The byte totals are those of the rows written, or that would be. */
    method RunAll(lib: Library, jobs: seq<Job>, dry: bool, commitOk: bool)
      returns (code: Option<int>, outcomes: seq<Outcome>, totalBefore: nat, totalAfter: nat)
      requires Valid() && log == [] && Now() == start && start.pending == start.committed
               && Selection(start.committed, jobs)
      modifies this
      ensures Valid() && log == RunCalls(lib, start, jobs, dry, commitOk)
      ensures code.Some? <==> Clean(lib, start, jobs, 0, dry) && (dry || commitOk)
      ensures code.Some? <==>
              && (dry || commitOk)
              && forall i :: 0 <= i < |jobs| ==>
                   !Interrupted(lib, start.objects, start.committed[jobs[i].id], jobs[i], dry)
      ensures code.Some? ==> outcomes == Outcomes(lib, start, jobs, dry)
      ensures code.Some? ==> code.value == if exists o :: o in outcomes && o.status.Failed? then 1 else 0
      ensures code.Some? ==>
                (code.value == 1 <==>
                 exists i :: 0 <= i < |jobs| && LetDown(lib, start.objects, start.committed[jobs[i].id], jobs[i], dry))
      ensures code.Some? ==> Totals(outcomes) == (totalBefore, totalAfter)
    {
      totalBefore, totalAfter, code := 0, 0, None;
      FailsExactlyWhen(lib, start, jobs, dry);
      CleanExactlyWhen(lib, start, jobs, dry);
      var ok;
      ok, outcomes := Rows(lib, jobs, dry);
      if !ok || dry || !commitOk { Do(Rollback); } else { Do(Commit); }
      if !ok || (!dry && !commitOk) {
        return;
      }
      var failures;
      failures, totalBefore, totalAfter := Report(outcomes);
      code := Some(if failures > 0 then 1 else 0);
    }
  }

  /** The summary `run` prints. */
  method Report(outcomes: seq<Outcome>) returns (failures: nat, totalBefore: nat, totalAfter: nat)
    ensures failures > 0 <==> exists o :: o in outcomes && o.status.Failed?
    ensures Totals(outcomes) == (totalBefore, totalAfter)
  {
    failures, totalBefore, totalAfter := 0, 0, 0;
    for i := 0 to |outcomes|
      invariant Totals(outcomes[..i]) == (totalBefore, totalAfter)
      invariant failures > 0 <==> exists k :: 0 <= k < i && outcomes[k].status.Failed?
    {
      var o := outcomes[i];
      assert outcomes[..i + 1][..i] == outcomes[..i] && outcomes[..i + 1][i] == o;
      if o.status.Wrote? || o.status.WouldWrite? {
        totalBefore, totalAfter := totalBefore + o.before, totalAfter + o.after;
      }
      if o.status.Failed? { failures := failures + 1; }
    }
    assert outcomes[..|outcomes|] == outcomes;
  }
}
