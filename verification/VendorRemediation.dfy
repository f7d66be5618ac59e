/** scripts/remediate_mislabelled_router_vendors.py: rows judged in one session and corrected
    in another, with other writers free to change the table before every re-read. */
module VendorRemediation {
  import opened Wrappers

  type Id = int
  type Instant = int

  const CORRECTED_VENDOR := "mikrotik"
  const CONTROLLER_MANAGED_VENDORS: set<string> := {"tplink_omada", "aruba_instant_on"}
  const MIKROTIK_MODEL_MARKERS: seq<string> := ["mikrotik", "routerboard", "hex", "hap", "ccr", "crs", "rb"]

  datatype Router = Router(
    name: string, model: string, vendor: string, isDeleted: bool, organization: Id, location: Id,
    lastSeenAt: Option<Instant>, routerosVersion: Option<string>, lastHealthCheckAt: Option<Instant>,
    apiCredentials: Option<string>, updatedBy: Option<Id>, updatedAt: Instant)

  type Table = map<Id, Router>

  datatype Evidence = Integration | LastSeen | RouterosVersion | LastHealthCheck | ApiCredentials | Model
  datatype Action = Correct | Keep | Undecidable
  datatype Verdict = Verdict(action: Action, rule: nat, evidence: seq<Evidence>)

  predicate Contains(s: string, part: string) {
    exists i :: 0 <= i <= |s| && part <= s[i..]
  }

  predicate LooksLikeMikrotik(model: string) {
    model != "" && exists m :: m in MIKROTIK_MODEL_MARKERS && Contains(LowerAll(model), m)
  }

  function AgentEvidence(r: Router): seq<Evidence> {
    (if r.lastSeenAt.Some? then [LastSeen] else [])
    + (if r.routerosVersion.Some? then [RouterosVersion] else [])
    + (if r.lastHealthCheckAt.Some? then [LastHealthCheck] else [])
    + (if r.apiCredentials.Some? then [ApiCredentials] else [])
  }

  /** `_verdict`: first matching rule wins. */
  function Judge(r: Router, integrated: bool): (v: Verdict)
    ensures v.action.Keep? <==> integrated
    ensures v.action.Correct? <==>
              !integrated && (r.lastSeenAt.Some? || r.routerosVersion.Some? || r.lastHealthCheckAt.Some?
                              || r.apiCredentials.Some? || LooksLikeMikrotik(r.model))
    ensures v.action.Correct? ==> v.evidence != []
  {
    if integrated then Verdict(Keep, 1, [Integration])
    else if AgentEvidence(r) != [] then Verdict(Correct, 2, AgentEvidence(r))
    else if LooksLikeMikrotik(r.model) then Verdict(Correct, 3, [Model])
    else Verdict(Undecidable, 4, [])
  }

  datatype Gathered = Gathered(id: Id, vendor: string, verdict: Verdict)

  predicate Suspect(r: Router) { !r.isDeleted && r.vendor in CONTROLLER_MANAGED_VENDORS }

  /** `_gather` returns one entry for each suspect row, in whatever order the query gave. */
  ghost predicate Gathers(table: Table, integrated: set<Id>, rows: seq<Gathered>) {
    && (forall i, j :: 0 <= i < j < |rows| ==> rows[i].id != rows[j].id)
    && (forall i :: 0 <= i < |rows| ==>
          && rows[i].id in table && Suspect(table[rows[i].id])
          && rows[i] == Gathered(rows[i].id, table[rows[i].id].vendor,
              Judge(table[rows[i].id], rows[i].id in integrated)))
    && (forall id :: id in table && Suspect(table[id]) ==> exists i :: 0 <= i < |rows| && rows[i].id == id)
  }

  datatype Audit = Audit(actor: Option<Id>, entity: Id, was: string, now: string, reason: string, rule: nat,
                         evidence: seq<Evidence>, organization: Id, location: Id)

  datatype Run = Run(actor: Option<Id>, reason: string, clock: Instant)

  /** One turn of `_apply`'s loop: does it write to the table it re-reads? */
  predicate Writes(table: Table, row: Gathered) {
    row.verdict.action.Correct? && row.id in table && table[row.id].vendor == row.vendor
  }

  function Corrected(r: Router, run: Run): Router {
    r.(vendor := CORRECTED_VENDOR, updatedBy := run.actor, updatedAt := run.clock)
  }

  function Turn(table: Table, row: Gathered, run: Run): Table {
    if Writes(table, row) then table[row.id := Corrected(table[row.id], run)] else table
  }

  function Entry(table: Table, row: Gathered, run: Run): Audit
    requires row.id in table
  {
    var r := table[row.id];
    Audit(run.actor, row.id, r.vendor, CORRECTED_VENDOR, run.reason, row.verdict.rule, row.verdict.evidence,
          r.organization, r.location)
  }

  /** What other sessions do to the table before a re-read. */
  type Others = Table -> Table

  /** The table re-read for row `i`, after others have acted. */
  function Seen(rows: seq<Gathered>, others: seq<Others>, table: Table, run: Run, i: nat): Table
    requires |others| == |rows| && i < |rows|
  {
    others[i](After(rows, others, table, run, i))
  }

  /** The table after the first `n` turns. */
  function After(rows: seq<Gathered>, others: seq<Others>, table: Table, run: Run, n: nat): Table
    requires |others| == |rows| && n <= |rows|
  {
    if n == 0 then table else Turn(others[n - 1](After(rows, others, table, run, n - 1)), rows[n - 1], run)
  }

  /** The audit entries added in the first `n` turns. */
  function Trail(rows: seq<Gathered>, others: seq<Others>, table: Table, run: Run, n: nat): seq<Audit>
    requires |others| == |rows| && n <= |rows|
  {
    if n == 0 then []
    else
      var seen := Seen(rows, others, table, run, n - 1);
      Trail(rows, others, table, run, n - 1)
      + if Writes(seen, rows[n - 1]) then [Entry(seen, rows[n - 1], run)] else []
  }

  function Count(rows: seq<Gathered>, others: seq<Others>, table: Table, run: Run, n: nat): nat
    requires |others| == |rows| && n <= |rows|
  {
    if n == 0 then 0
    else Count(rows, others, table, run, n - 1) + if Writes(Seen(rows, others, table, run, n - 1), rows[n - 1])
        then 1 else 0
  }

  // ----- under any interference -----

  /** Each turn changes at most its own row, only if that row was judged `correct` and still
      carries the gathered vendor, and then only its vendor and who changed it when. */
  lemma TurnTouchesOnlyItsRow(table: Table, row: Gathered, run: Run, id: Id)
    ensures Turn(table, row, run).Keys == table.Keys
    ensures id in table && Turn(table, row, run)[id] != table[id] ==>
              && id == row.id && row.verdict.action.Correct? && table[id].vendor == row.vendor
              && Turn(table, row, run)[id]
                  == table[id].(vendor := CORRECTED_VENDOR, updatedBy := run.actor, updatedAt := run.clock)
  {
  }

  ghost predicate DistinctIds(rows: seq<Gathered>) {
    forall i, j :: 0 <= i < j < |rows| ==> rows[i].id != rows[j].id
  }

  ghost predicate Audited(trail: seq<Audit>, id: Id) {
    exists k :: 0 <= k < |trail| && trail[k].entity == id
  }

  /** One of the first `n` turns wrote this row. */
  ghost predicate WrittenIn(rows: seq<Gathered>, others: seq<Others>, table: Table, run: Run, n: nat, id: Id)
    requires |others| == |rows| && n <= |rows|
  {
    exists i :: 0 <= i < n && rows[i].id == id && Writes(Seen(rows, others, table, run, i), rows[i])
  }

  lemma AuditedAfter(trail: seq<Audit>, a: Audit, id: Id)
    ensures Audited(trail + [a], id) <==> Audited(trail, id) || a.entity == id
  {
    if Audited(trail, id) {
      var k :| 0 <= k < |trail| && trail[k].entity == id;
      assert (trail + [a])[k].entity == id;
    }
    assert (trail + [a])[|trail|] == a;
  }

  /** The audited rows are exactly those some turn wrote. */
  lemma {:induction false} AuditedExactlyWhenWritten(rows: seq<Gathered>, others: seq<Others>, table: Table,
                                                     run: Run, n: nat, id: Id)
    requires |others| == |rows| && n <= |rows|
    ensures Audited(Trail(rows, others, table, run, n), id) <==> WrittenIn(rows, others, table, run, n, id)
    decreases n
  {
    if n > 0 {
      AuditedExactlyWhenWritten(rows, others, table, run, n - 1, id);
      var before, seen := Trail(rows, others, table, run, n - 1), Seen(rows, others, table, run, n - 1);
      if Writes(seen, rows[n - 1]) {
        AuditedAfter(before, Entry(seen, rows[n - 1], run), id);
      } else {
        AddNothing(before);
      }
      if WrittenIn(rows, others, table, run, n - 1, id) {
        var i :| 0 <= i < n - 1 && rows[i].id == id && Writes(Seen(rows, others, table, run, i), rows[i]);
        assert 0 <= i < n;
      }
    }
  }

  /** Whatever the others do, audit entries and writes correspond one to one: as many entries as
      turns that wrote, no row audited twice, exactly the written rows audited, and each entry
      recording a row that was judged `correct` and held the gathered vendor when re-read. */
  lemma {:induction false} TrailIsExact(rows: seq<Gathered>, others: seq<Others>, table: Table, run: Run, n: nat)
    requires |others| == |rows| && n <= |rows|
    ensures |Trail(rows, others, table, run, n)| == Count(rows, others, table, run, n)
    ensures forall k :: 0 <= k < |Trail(rows, others, table, run, n)| ==>
              Recorded(rows, others, table, run, n, Trail(rows, others, table, run, n)[k])
    ensures forall id :: Audited(Trail(rows, others, table, run, n), id) <==> WrittenIn(rows, others, table, run, n, id)
    ensures DistinctIds(rows) ==>
              forall k, l :: 0 <= k < l < |Trail(rows, others, table, run, n)| ==>
                Trail(rows, others, table, run, n)[k].entity != Trail(rows, others, table, run, n)[l].entity
    decreases n
  {
    forall id
      ensures Audited(Trail(rows, others, table, run, n), id) <==> WrittenIn(rows, others, table, run, n, id)
    {
      AuditedExactlyWhenWritten(rows, others, table, run, n, id);
    }
    if n > 0 {
      TrailIsExact(rows, others, table, run, n - 1);
      var before, all := Trail(rows, others, table, run, n - 1), Trail(rows, others, table, run, n);
      forall k | 0 <= k < |all|
        ensures Recorded(rows, others, table, run, n, all[k])
      {
        RecordedStill(rows, others, table, run, n, before, k);
      }
      if DistinctIds(rows) && Writes(Seen(rows, others, table, run, n - 1), rows[n - 1]) {
        NewlyAudited(rows, others, table, run, n - 1, before);
      }
    }
  }

  /** A row whose turn is still to come is not in the trail yet. */
  lemma NewlyAudited(rows: seq<Gathered>, others: seq<Others>, table: Table, run: Run, n: nat, before: seq<Audit>)
    requires |others| == |rows| && n < |rows| && DistinctIds(rows)
    requires forall k :: 0 <= k < |before| ==> Recorded(rows, others, table, run, n, before[k])
    ensures forall k :: 0 <= k < |before| ==> before[k].entity != rows[n].id
  {
    forall k | 0 <= k < |before|
      ensures before[k].entity != rows[n].id
    {
      var i :| 0 <= i < n && RecordedAt(rows, others, table, run, i, before[k]);
    }
  }

  lemma RecordedStill(rows: seq<Gathered>, others: seq<Others>, table: Table, run: Run, n: nat, before: seq<Audit>,
                      k: nat)
    requires |others| == |rows| && 0 < n <= |rows| && before == Trail(rows, others, table, run, n - 1)
    requires forall l :: 0 <= l < |before| ==> Recorded(rows, others, table, run, n - 1, before[l])
    requires k < |Trail(rows, others, table, run, n)|
    ensures Recorded(rows, others, table, run, n, Trail(rows, others, table, run, n)[k])
  {
    var all := Trail(rows, others, table, run, n);
    if k < |before| {
      assert all[k] == before[k];
      var i :| 0 <= i < n - 1 && RecordedAt(rows, others, table, run, i, before[k]);
      assert RecordedAt(rows, others, table, run, i, all[k]);
    } else {
      assert RecordedAt(rows, others, table, run, n - 1, all[k]);
    }
  }

  ghost predicate RecordedAt(rows: seq<Gathered>, others: seq<Others>, table: Table, run: Run, i: nat, a: Audit)
    requires |others| == |rows| && i < |rows|
  {
    var seen := Seen(rows, others, table, run, i);
    && a.entity == rows[i].id && rows[i].verdict.action.Correct? && a.entity in seen
    && a.was == rows[i].vendor == seen[a.entity].vendor && a.now == CORRECTED_VENDOR
    && a.rule == rows[i].verdict.rule && a.evidence == rows[i].verdict.evidence && a.reason == run.reason
    && a.actor == run.actor && a.organization == seen[a.entity].organization && a.location == seen[a.entity].location
    && After(rows, others, table, run, i + 1) == seen[a.entity := Corrected(seen[a.entity], run)]
  }

  ghost predicate Recorded(rows: seq<Gathered>, others: seq<Others>, table: Table, run: Run, n: nat, a: Audit)
    requires |others| == |rows| && n <= |rows|
  {
    exists i :: 0 <= i < n && RecordedAt(rows, others, table, run, i, a)
  }

  // ----- the trail as an undo log -----

  /** Put each audited row's recorded old vendor back. */
  function Replay(table: Table, trail: seq<Audit>): Table {
    if trail == [] then table
    else
      var t := Replay(table, trail[..|trail| - 1]);
      var a := trail[|trail| - 1];
      if a.entity in t then t[a.entity := t[a.entity].(vendor := a.was)] else t
  }

  lemma {:induction false} ReplayRow(table: Table, trail: seq<Audit>, id: Id, vendor: string)
    requires id in table
    requires forall k :: 0 <= k < |trail| && trail[k].entity == id ==> trail[k].was == vendor
    ensures Replay(table, trail).Keys == table.Keys
    ensures Replay(table, trail)[id].vendor ==
            if Audited(trail, id) then vendor else table[id].vendor
    decreases trail
  {
    if trail != [] {
      var n := |trail| - 1;
      ReplayRow(table, trail[..n], id, vendor);
      if Audited(trail, id) && trail[n].entity != id {
        var k :| 0 <= k < |trail| && trail[k].entity == id;
        assert trail[..n][k].entity == id;
      }
      if Audited(trail[..n], id) {
        var k :| 0 <= k < n && trail[..n][k].entity == id;
        assert trail[k].entity == id;
      }
    }
  }

  lemma {:induction false} ReplayKeys(table: Table, trail: seq<Audit>)
    ensures Replay(table, trail).Keys == table.Keys
    decreases trail
  {
    if trail != [] {
      ReplayKeys(table, trail[..|trail| - 1]);
    }
  }

  /** An entry about row `i` records the vendor that row held when it was re-read. */
  lemma EntryOfRow(rows: seq<Gathered>, others: seq<Others>, table: Table, run: Run, i: nat, a: Audit)
    requires |others| == |rows| && DistinctIds(rows) && i < |rows|
    requires Recorded(rows, others, table, run, |rows|, a) && a.entity == rows[i].id
    ensures Writes(Seen(rows, others, table, run, i), rows[i])
    ensures a.was == Seen(rows, others, table, run, i)[rows[i].id].vendor
  {
    var j :| 0 <= j < |rows| && RecordedAt(rows, others, table, run, j, a);
    assert j == i;
  }

  /** Replaying the trail on what the run left, whatever others did before and after each turn:
      a row the run wrote gets back the vendor it held when it was re-read, every other row
      keeps the vendor it has, and no row appears or disappears. */
  lemma ReplayUndoesWrites(rows: seq<Gathered>, others: seq<Others>, table: Table, run: Run)
    requires |others| == |rows| && DistinctIds(rows)
    ensures
      var end := After(rows, others, table, run, |rows|);
      var undone := Replay(end, Trail(rows, others, table, run, |rows|));
      && undone.Keys == end.Keys
      && (forall i :: 0 <= i < |rows| && rows[i].id in end ==>
            undone[rows[i].id].vendor ==
            if Writes(Seen(rows, others, table, run, i), rows[i])
            then Seen(rows, others, table, run, i)[rows[i].id].vendor else end[rows[i].id].vendor)
      && (forall id :: id in end && !Among(rows, id) ==> undone[id].vendor == end[id].vendor)
  {
    var end, trail := After(rows, others, table, run, |rows|), Trail(rows, others, table, run, |rows|);
    ReplayKeys(end, trail);
    forall i | 0 <= i < |rows| && rows[i].id in end
      ensures Replay(end, trail)[rows[i].id].vendor ==
              if Writes(Seen(rows, others, table, run, i), rows[i])
              then Seen(rows, others, table, run, i)[rows[i].id].vendor else end[rows[i].id].vendor
    {
      ReplayOneRow(rows, others, table, run, i);
    }
    forall id | id in end && !Among(rows, id)
      ensures Replay(end, trail)[id].vendor == end[id].vendor
    {
      AuditedExactlyWhenWritten(rows, others, table, run, |rows|, id);
      ReplayRow(end, trail, id, end[id].vendor);
    }
  }

  lemma ReplayOneRow(rows: seq<Gathered>, others: seq<Others>, table: Table, run: Run, i: nat)
    requires |others| == |rows| && DistinctIds(rows) && i < |rows|
    requires rows[i].id in After(rows, others, table, run, |rows|)
    ensures
      var end, id, seen := After(rows, others, table, run, |rows|), rows[i].id, Seen(rows, others, table, run, i);
      var undone := Replay(end, Trail(rows, others, table, run, |rows|));
      && id in undone
      && undone[id].vendor == if Writes(seen, rows[i]) then seen[id].vendor else end[id].vendor
  {
    var end, trail := After(rows, others, table, run, |rows|), Trail(rows, others, table, run, |rows|);
    var seen, id := Seen(rows, others, table, run, i), rows[i].id;
    TrailIsExact(rows, others, table, run, |rows|);
    forall k | 0 <= k < |trail| && trail[k].entity == id
      ensures Writes(seen, rows[i]) && trail[k].was == seen[id].vendor
    {
      EntryOfRow(rows, others, table, run, i, trail[k]);
    }
    ReplayRow(end, trail, id, if Writes(seen, rows[i]) then seen[id].vendor else end[id].vendor);
    if Writes(seen, rows[i]) {
      assert WrittenIn(rows, others, table, run, |rows|, id);
    }
  }

  // ----- with nobody else writing -----

  ghost predicate Alone(others: seq<Others>) {
    forall i, t :: 0 <= i < |others| ==> others[i](t) == t
  }

  /** Each entry names its own row of the table and that row's present vendor. */
  ghost predicate Current(table: Table, rows: seq<Gathered>) {
    && (forall i, j :: 0 <= i < j < |rows| ==> rows[i].id != rows[j].id)
    && (forall i :: 0 <= i < |rows| ==> rows[i].id in table && rows[i].vendor == table[rows[i].id].vendor)
  }

  lemma GatheredIsCurrent(table: Table, integrated: set<Id>, rows: seq<Gathered>)
    requires Gathers(table, integrated, rows)
    ensures Current(table, rows)
    ensures forall id :: id in table && Suspect(table[id]) ==> Among(rows, id)
  {
  }

  ghost predicate Among(rows: seq<Gathered>, id: Id) {
    exists i :: 0 <= i < |rows| && rows[i].id == id
  }

  /** The table with every row judged `correct` corrected, the rest as it was. */
  lemma {:induction false} AloneCorrectsAll(rows: seq<Gathered>, others: seq<Others>, table: Table, run: Run, n: nat)
    requires |others| == |rows| && n <= |rows| && Alone(others) && Current(table, rows)
    ensures After(rows, others, table, run, n).Keys == table.Keys
    ensures forall i :: 0 <= i < |rows| ==>
              After(rows, others, table, run, n)[rows[i].id] ==
              if i < n && rows[i].verdict.action.Correct? then Corrected(table[rows[i].id], run) else table[rows[i].id]
    ensures forall id :: id in table && !Among(rows, id) ==> After(rows, others, table, run, n)[id] == table[id]
    decreases n
  {
    if n > 0 {
      AloneCorrectsAll(rows, others, table, run, n - 1);
      var before := After(rows, others, table, run, n - 1);
      assert others[n - 1](before) == before;
      assert Among(rows, rows[n - 1].id);
    }
  }

  /** With nobody else writing, the trail restores the vendor column exactly. */
  lemma ReplayRestores(rows: seq<Gathered>, others: seq<Others>, table: Table, integrated: set<Id>, run: Run)
    requires |others| == |rows| && Alone(others) && Gathers(table, integrated, rows)
    ensures
      var undone := Replay(After(rows, others, table, run, |rows|), Trail(rows, others, table, run, |rows|));
      undone.Keys == table.Keys && forall id :: id in table ==> undone[id].vendor == table[id].vendor
  {
    GatheredIsCurrent(table, integrated, rows);
    AloneCorrectsAll(rows, others, table, run, |rows|);
    ReplayUndoesWrites(rows, others, table, run);
    forall id | id in table
      ensures Replay(After(rows, others, table, run, |rows|), Trail(rows, others, table, run, |rows|))[id].vendor
              == table[id].vendor
    {
      if Among(rows, id) {
        var i :| 0 <= i < |rows| && rows[i].id == id;
        AloneSees(rows, others, table, run, i);
      }
    }
  }

  lemma AloneSees(rows: seq<Gathered>, others: seq<Others>, table: Table, run: Run, i: nat)
    requires |others| == |rows| && i < |rows| && Alone(others) && Current(table, rows)
    ensures
      var seen := Seen(rows, others, table, run, i);
      && rows[i].id in seen && seen[rows[i].id] == table[rows[i].id]
      && (Writes(seen, rows[i]) <==> rows[i].verdict.action.Correct?)
  {
    AloneCorrectsAll(rows, others, table, run, i);
    assert Seen(rows, others, table, run, i) == After(rows, others, table, run, i);
  }

  /** After an undisturbed apply a second gather finds nothing left to correct, so the second
      apply writes no row and adds no entry, whatever others do meanwhile. */
  lemma SecondRunWritesNothing(rows: seq<Gathered>, others: seq<Others>, table: Table, integrated: set<Id>, run: Run,
                               again: seq<Gathered>, later: seq<Others>, rerun: Run)
    requires |others| == |rows| && Alone(others) && Gathers(table, integrated, rows) && |later| == |again|
    requires Gathers(After(rows, others, table, run, |rows|), integrated, again)
    ensures
      var end := After(rows, others, table, run, |rows|);
      && Count(again, later, end, rerun, |again|) == 0 && Trail(again, later, end, rerun, |again|) == []
      && forall j :: 0 <= j < |again| ==> After(again, later, end, rerun, j + 1) == Seen(again, later, end, rerun, j)
  {
    var end := After(rows, others, table, run, |rows|);
    forall j | 0 <= j < |again|
      ensures !again[j].verdict.action.Correct?
    {
      NotCorrectedAgain(rows, others, table, integrated, run, again, j);
    }
    NothingToCorrect(again, later, end, rerun, |again|);
  }

  lemma NotCorrectedAgain(rows: seq<Gathered>, others: seq<Others>, table: Table, integrated: set<Id>, run: Run,
                          again: seq<Gathered>, j: nat)
    requires |others| == |rows| && Alone(others) && Gathers(table, integrated, rows) && j < |again|
    requires Gathers(After(rows, others, table, run, |rows|), integrated, again)
    ensures !again[j].verdict.action.Correct?
  {
    var end, id := After(rows, others, table, run, |rows|), again[j].id;
    GatheredIsCurrent(table, integrated, rows);
    AloneCorrectsAll(rows, others, table, run, |rows|);
    assert Suspect(end[id]);
    if Among(rows, id) {
      var i :| 0 <= i < |rows| && rows[i].id == id;
      NotSuspect(table[id], run);
      assert !rows[i].verdict.action.Correct?;
    }
  }

  lemma NotSuspect(r: Router, run: Run)
    ensures !Suspect(Corrected(r, run))
  {
  }

  lemma {:induction false} NothingToCorrect(rows: seq<Gathered>, others: seq<Others>, table: Table, run: Run, n: nat)
    requires |others| == |rows| && n <= |rows| && forall i :: 0 <= i < |rows| ==> !rows[i].verdict.action.Correct?
    ensures Count(rows, others, table, run, n) == 0 && Trail(rows, others, table, run, n) == []
    decreases n
  {
    if n > 0 {
      NothingToCorrect(rows, others, table, run, n - 1);
    }
  }

  // ----- a row that becomes a controller after the judgement -----

  /** The run adds no entry about the row, and no turn of it changes the row. */
  ghost predicate LeftAlone(rows: seq<Gathered>, others: seq<Others>, table: Table, run: Run, id: Id)
    requires |others| == |rows|
  {
    && !Audited(Trail(rows, others, table, run, |rows|), id)
    && forall j :: 0 <= j < |rows| ==>
        SameRow(Seen(rows, others, table, run, j), After(rows, others, table, run, j + 1), id)
  }

  ghost predicate SameRow(before: Table, after: Table, id: Id) {
    (id in before <==> id in after) && (id in before ==> after[id] == before[id])
  }

  /** The docstring: a row acquiring an integration before the apply must not be corrected. A row
      judged `correct` that is integrated by then, so that judging it again would say `keep`, is
      left alone by the whole run exactly when, at its turn, it is gone or its vendor has moved:
      `_apply` re-reads the vendor and nothing else. */
  lemma AcquiredIntegrationExactlyWhen(rows: seq<Gathered>, others: seq<Others>, table: Table, run: Run,
                                       before: set<Id>, now: set<Id>, i: nat)
    requires |others| == |rows| && Gathers(table, before, rows) && i < |rows|
    requires rows[i].verdict.action.Correct? && rows[i].id in now - before
    ensures Judge(table[rows[i].id], rows[i].id in now).action.Keep?
    ensures
      var seen := Seen(rows, others, table, run, i);
      LeftAlone(rows, others, table, run, rows[i].id) <==>
      rows[i].id !in seen || seen[rows[i].id].vendor != rows[i].vendor
  {
    var id, seen := rows[i].id, Seen(rows, others, table, run, i);
    assert DistinctIds(rows);
    AuditedExactlyWhenWritten(rows, others, table, run, |rows|, id);
    if Writes(seen, rows[i]) {
      assert WrittenIn(rows, others, table, run, |rows|, id);
    } else {
      forall j | 0 <= j < |rows|
        ensures SameRow(Seen(rows, others, table, run, j), After(rows, others, table, run, j + 1), id)
      {
        TurnTouchesOnlyItsRow(Seen(rows, others, table, run, j), rows[j], run, id);
      }
    }
  }

  /** A row with agent evidence and a controller label: judged before its integration is
      registered, corrected after, although judging it then would say `keep`. */
  lemma CorrectedDespiteIntegration(run: Run) returns (table: Table, row: Gathered)
    ensures Gathers(table, {}, [row])
    ensures Writes(table, row) && Judge(table[row.id], true).action.Keep?
    ensures Turn(table, row, run)[row.id].vendor == CORRECTED_VENDOR
  {
    var r := Router("Office Guest", "OC300", "tplink_omada", false, 1, 1, Some(5), None, None, None, None, 0);
    table := map[7 := r];
    row := Gathered(7, r.vendor, Judge(r, false));
    assert [row][0] == row;
    assert table[7].vendor in CONTROLLER_MANAGED_VENDORS;
  }

  /** Across two invocations the promise holds: a row integrated when the applying run gathers
      is never written, whatever others do. */
  lemma {:induction false} IntegratedAtGatherIsKept(rows: seq<Gathered>, others: seq<Others>, table: Table,
                                                    integrated: set<Id>, run: Run, n: nat, id: Id)
    requires |others| == |rows| && n <= |rows| && Gathers(table, integrated, rows) && id in integrated
    ensures forall k :: 0 <= k < |Trail(rows, others, table, run, n)| ==>
            Trail(rows, others, table, run, n)[k].entity != id
    decreases n
  {
    if n > 0 {
      IntegratedAtGatherIsKept(rows, others, table, integrated, run, n - 1, id);
    }
  }

  // ----- which rows, in the columns -----

  /** Each entry's row, as gathered, was not deleted, carried one of the two controller labels,
      had no live integration and showed an agent or a MikroTik model. */
  ghost predicate Justified(table: Table, integrated: set<Id>, a: Audit) {
    && a.entity in table && !table[a.entity].isDeleted && a.entity !in integrated
    && (table[a.entity].vendor == "tplink_omada" || table[a.entity].vendor == "aruba_instant_on")
    && (|| table[a.entity].lastSeenAt.Some? || table[a.entity].routerosVersion.Some?
        || table[a.entity].lastHealthCheckAt.Some? || table[a.entity].apiCredentials.Some?
        || LooksLikeMikrotik(table[a.entity].model))
    && a.was == table[a.entity].vendor && a.now == "mikrotik"
  }

  lemma GatheredColumns(table: Table, integrated: set<Id>, rows: seq<Gathered>, i: nat)
    requires Gathers(table, integrated, rows) && i < |rows|
    ensures
      var r := table[rows[i].id];
      && !r.isDeleted && (r.vendor == "tplink_omada" || r.vendor == "aruba_instant_on") && rows[i].vendor == r.vendor
      && (rows[i].verdict.action.Correct? <==>
            rows[i].id !in integrated && (r.lastSeenAt.Some? || r.routerosVersion.Some? || r.lastHealthCheckAt.Some?
                                          || r.apiCredentials.Some? || LooksLikeMikrotik(r.model)))
  {
    assert Suspect(table[rows[i].id]);
  }

  /** Whatever others do, the run audits only rows it had grounds for when it gathered, and
      names the vendor the row had then. */
  lemma AuditedRowsAreJustified(rows: seq<Gathered>, others: seq<Others>, table: Table, integrated: set<Id>, run: Run)
    requires |others| == |rows| && Gathers(table, integrated, rows)
    ensures
      var trail := Trail(rows, others, table, run, |rows|);
      forall k :: 0 <= k < |trail| ==>
        Justified(table, integrated, trail[k]) && trail[k].reason == run.reason && trail[k].actor == run.actor
  {
    var trail := Trail(rows, others, table, run, |rows|);
    TrailIsExact(rows, others, table, run, |rows|);
    forall k | 0 <= k < |trail|
      ensures Justified(table, integrated, trail[k]) && trail[k].reason == run.reason && trail[k].actor == run.actor
    {
      var i :| 0 <= i < |rows| && RecordedAt(rows, others, table, run, i, trail[k]);
      GatheredColumns(table, integrated, rows, i);
    }
  }

  /** Not there when the rows were gathered, or deleted, integrated or differently labelled. */
  ghost predicate Unconcerned(table: Table, integrated: set<Id>, id: Id) {
    || id !in table || table[id].isDeleted || id in integrated
    || (table[id].vendor != "tplink_omada" && table[id].vendor != "aruba_instant_on")
  }

  /** Whatever others do, such a row is never audited and no turn changes it. */
  lemma OthersAreLeftAlone(rows: seq<Gathered>, others: seq<Others>, table: Table, integrated: set<Id>, run: Run,
                           id: Id)
    requires |others| == |rows| && Gathers(table, integrated, rows)
    requires Unconcerned(table, integrated, id)
    ensures LeftAlone(rows, others, table, run, id)
  {
    AuditedExactlyWhenWritten(rows, others, table, run, |rows|, id);
    forall j | 0 <= j < |rows|
      ensures !(rows[j].id == id && rows[j].verdict.action.Correct?)
    {
      GatheredColumns(table, integrated, rows, j);
    }
    forall j | 0 <= j < |rows|
      ensures SameRow(Seen(rows, others, table, run, j), After(rows, others, table, run, j + 1), id)
    {
      TurnTouchesOnlyItsRow(Seen(rows, others, table, run, j), rows[j], run, id);
    }
  }

  ghost predicate Remedied(r: Router, integrated: bool, run: Run, now: Router) {
    now ==
    if !r.isDeleted && (r.vendor == "tplink_omada" || r.vendor == "aruba_instant_on") && !integrated
       && (r.lastSeenAt.Some? || r.routerosVersion.Some? || r.lastHealthCheckAt.Some?
           || r.apiCredentials.Some? || LooksLikeMikrotik(r.model))
    then r.(vendor := "mikrotik", updatedBy := run.actor, updatedAt := run.clock) else r
  }

  /** With nobody else writing: exactly the undeleted rows with a controller label, no live
      integration and an agent's trace or a MikroTik model become `mikrotik`. */
  lemma AloneCorrectsTheMislabelled(rows: seq<Gathered>, others: seq<Others>, table: Table, integrated: set<Id>,
                                    run: Run, id: Id)
    requires |others| == |rows| && Alone(others) && Gathers(table, integrated, rows) && id in table
    ensures
      var end := After(rows, others, table, run, |rows|);
      end.Keys == table.Keys && Remedied(table[id], id in integrated, run, end[id])
  {
    GatheredIsCurrent(table, integrated, rows);
    AloneCorrectsAll(rows, others, table, run, |rows|);
    if Among(rows, id) {
      var i :| 0 <= i < |rows| && rows[i].id == id;
      GatheredColumns(table, integrated, rows, i);
    }
  }

  // ----- the script -----

  ghost predicate Entered(table: Table, integrated: set<Id>, row: Gathered) {
    && row.id in table && Suspect(table[row.id])
    && row == Gathered(row.id, table[row.id].vendor, Judge(table[row.id], row.id in integrated))
  }

  /** `rows` has one entry for each suspect row among those the query has met. */
  ghost predicate Collected(table: Table, integrated: set<Id>, met: set<Id>, rows: seq<Gathered>) {
    && DistinctIds(rows)
    && (forall i :: 0 <= i < |rows| ==> Entered(table, integrated, rows[i]) && rows[i].id in met)
    && (forall id :: id in met && id in table && Suspect(table[id]) ==> Among(rows, id))
  }

  lemma CollectedGrows(table: Table, integrated: set<Id>, met: set<Id>, rows: seq<Gathered>, row: Gathered)
    requires Collected(table, integrated, met, rows) && row.id !in met && Entered(table, integrated, row)
    ensures Collected(table, integrated, met + {row.id}, rows + [row])
  {
    var all := rows + [row];
    assert all[|rows|] == row;
    forall id | id in met && id in table && Suspect(table[id])
      ensures Among(all, id)
    {
      var i :| 0 <= i < |rows| && rows[i].id == id;
      assert all[i].id == id;
    }
  }

  lemma CollectedAll(table: Table, integrated: set<Id>, rows: seq<Gathered>)
    requires Collected(table, integrated, table.Keys, rows)
    ensures Gathers(table, integrated, rows)
    ensures forall id :: Among(rows, id) <==>
              && id in table && !table[id].isDeleted
              && (table[id].vendor == "tplink_omada" || table[id].vendor == "aruba_instant_on")
  {
    forall i | 0 <= i < |rows|
      ensures Entered(table, integrated, rows[i])
    {
    }
    assert forall id :: id in table && Suspect(table[id]) ==> Among(rows, id);
  }

  class Fleet {
    var routers: Table
    var audit: seq<Audit>

    constructor (table: Table, log: seq<Audit>)
      ensures routers == table && audit == log
    {
      routers, audit := table, log;
    }

    /** `order` is the order in which the query meets the rows of the table. */
    method Gather(integrated: set<Id>, order: seq<Id>) returns (rows: seq<Gathered>)
      requires forall i, j :: 0 <= i < j < |order| ==> order[i] != order[j]
      requires forall i :: 0 <= i < |order| ==> order[i] in routers
      requires forall id :: id in routers ==> id in order
      ensures Gathers(routers, integrated, rows) && |rows| <= |order|
      ensures forall id :: Among(rows, id) <==>
                && id in routers && !routers[id].isDeleted
                && (routers[id].vendor == "tplink_omada" || routers[id].vendor == "aruba_instant_on")
    {
      rows := [];
      ghost var met: set<Id> := {};
      for i := 0 to |order|
        invariant |rows| <= i && Collected(routers, integrated, met, rows)
        invariant met == set k | 0 <= k < i :: order[k]
      {
        var r := routers[order[i]];
        if !r.isDeleted && r.vendor in CONTROLLER_MANAGED_VENDORS {
          var row := Gathered(order[i], r.vendor, Judge(r, order[i] in integrated));
          CollectedGrows(routers, integrated, met, rows, row);
          rows := rows + [row];
        }
        met := met + {order[i]};
      }
      forall id | id in routers
        ensures id in met
      {
        var k :| 0 <= k < |order| && order[k] == id;
      }
      assert met == routers.Keys;
      CollectedAll(routers, integrated, rows);
    }

    /** `_apply`: the returned count is the number of rows this run wrote and of the audit
        entries it added. */
    method Apply(rows: seq<Gathered>, others: seq<Others>, run: Run) returns (written: nat)
      requires |others| == |rows|
      modifies this
      ensures routers == After(rows, others, old(routers), run, |rows|)
      ensures audit == old(audit) + Trail(rows, others, old(routers), run, |rows|)
      ensures written == Count(rows, others, old(routers), run, |rows|) == |audit| - |old(audit)|
    {
      TrailIsExact(rows, others, routers, run, |rows|);
      written := 0;
      for i := 0 to |rows|
        invariant routers == After(rows, others, old(routers), run, i)
        invariant audit == old(audit) + Trail(rows, others, old(routers), run, i)
        invariant written == Count(rows, others, old(routers), run, i)
      {
        routers := others[i](routers);
        var row := rows[i];
        if row.verdict.action.Correct? && row.id in routers && routers[row.id].vendor == row.vendor {
          var router := routers[row.id];
          var previous := router.vendor;
          audit := audit + [Audit(run.actor, row.id, previous, CORRECTED_VENDOR, run.reason, row.verdict.rule,
                                  row.verdict.evidence, router.organization, router.location)];
          routers := routers[row.id :=
              router.(vendor := CORRECTED_VENDOR, updatedBy := run.actor, updatedAt := run.clock)];
          written := written + 1;
        }
      }
    }

    /** `main`: nothing is written unless `--apply`, the approval flag and a reason of eight
        characters are all given; a refused apply exits 2. */
    method Remediate(integrated: set<Id>, order: seq<Id>, apply: bool, approved: bool, others: seq<Others>, run: Run)
      returns (code: int)
      requires forall i, j :: 0 <= i < j < |order| ==> order[i] != order[j]
      requires forall i :: 0 <= i < |order| ==> order[i] in routers
      requires forall id :: id in routers ==> id in order
      requires |others| == |order|
      modifies this
      ensures code == if apply && !(approved && |run.reason| >= 8) then 2 else 0
      ensures !(apply && approved && |run.reason| >= 8) ==> routers == old(routers) && audit == old(audit)
      ensures apply && approved && |run.reason| >= 8 ==>
                exists rows :: Gathers(old(routers), integrated, rows) && |rows| <= |others|
                  && routers == After(rows, others[..|rows|], old(routers), run, |rows|)
                  && audit == old(audit) + Trail(rows, others[..|rows|], old(routers), run, |rows|)
                  && forall id :: Unconcerned(old(routers), integrated, id) ==>
                       LeftAlone(rows, others[..|rows|], old(routers), run, id)
      ensures apply && approved && |run.reason| >= 8 && Alone(others) ==>
                routers.Keys == old(routers).Keys &&
                forall id :: id in old(routers) ==> Remedied(old(routers)[id], id in integrated, run, routers[id])
      ensures |old(audit)| <= |audit| && audit[..|old(audit)|] == old(audit)
      ensures forall k :: |old(audit)| <= k < |audit| ==>
                Justified(old(routers), integrated, audit[k]) && audit[k].reason == run.reason
    {
      var rows := Gather(integrated, order);
      if !apply {
        return 0;
      }
      if !approved || |run.reason| < 8 {
        return 2;
      }
      ghost var meanwhile := others[..|rows|];
      AuditedRowsAreJustified(rows, meanwhile, routers, integrated, run);
      forall id | Unconcerned(routers, integrated, id)
        ensures LeftAlone(rows, meanwhile, routers, run, id)
      {
        OthersAreLeftAlone(rows, meanwhile, routers, integrated, run, id);
      }
      forall id | Alone(others) && id in routers
        ensures
          var end := After(rows, meanwhile, routers, run, |rows|);
          end.Keys == routers.Keys && Remedied(routers[id], id in integrated, run, end[id])
      {
        AloneCorrectsTheMislabelled(rows, meanwhile, routers, integrated, run, id);
      }
      var written := Apply(rows, others[..|rows|], run);
      code := 0;
    }
  }
}
