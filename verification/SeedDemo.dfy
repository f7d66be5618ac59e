/** The demo traffic generator: sessions, login rows and router health over the last month, with
    every random draw an arbitrary value in its range. Times are in microseconds, UTC. */
module DemoTraffic {
  import opened Wrappers
  import opened Clock

  const TrafficDays: nat := 30
  const FewestPerDay: nat := 3
  const MostPerDay: nat := 9
  const BytesPerMb: int := 1_048_576

  datatype GuestSessionStatus = Active | Disconnected | Expired | Terminated

  datatype GuestSession = GuestSession(
    guest: int, router: int, location: int, organization: int, status: GuestSessionStatus, startedAt: int,
    endedAt: Option<int>, lastActivityAt: int, uploaded: int, downloaded: int, reason: Option<string>)

  datatype Login = Login(guest: Option<int>, organization: int, location: int, success: bool, attemptedAt: int)

  datatype Snapshot = Snapshot(router: int, recordedAt: int)

  function Midnight(t: int): int { t - t % Day }

  method RandomInt(low: int, high: int) returns (x: int)
    requires low <= high
    ensures low <= x <= high
  {
    x :| low <= x <= high;
  }

  method Chance() returns (yes: bool)
  {
    yes :| yes || !yes;
  }

  /** Three to nine on a weekday; at the weekend five to eleven where it is busy, else three to six. */
  predicate Volume(n: nat, weekendHeavy: bool, day: int) {
    if Weekday(day) < 5 then FewestPerDay <= n <= MostPerDay
    else if weekendHeavy then FewestPerDay + 2 <= n <= MostPerDay + 2 else FewestPerDay <= n <= MostPerDay - 3
  }

  /** How many sessions a venue gets on a day. */
  method SessionsForDay(weekendHeavy: bool, day: int) returns (n: nat)
    ensures FewestPerDay <= n <= MostPerDay + 2
    ensures Weekday(day / Day) < 5 ==> n <= MostPerDay
    ensures Weekday(day / Day) >= 5 ==> if weekendHeavy then n >= FewestPerDay + 2 else n <= MostPerDay - 3
    ensures Volume(n, weekendHeavy, day / Day)
  {
    var base := RandomInt(FewestPerDay, MostPerDay);
    var isWeekend := Weekday(day / Day) >= 5;
    if isWeekend && !weekendHeavy { base := if base - 3 < FewestPerDay then FewestPerDay else base - 3; }
    if isWeekend && weekendHeavy { base := if base + 2 > MostPerDay + 2 then MostPerDay + 2 else base + 2; }
    return base;
  }

  /** What every generated session satisfies, whatever was drawn. */
  predicate Sound(s: GuestSession, now: int, today: bool) {
    && (s.status == Active <==> s.endedAt.None?)
    && (s.status == Active ==> today && s.startedAt < now && s.reason.None?)
    && (s.endedAt.Some? ==> s.endedAt.value <= now && s.lastActivityAt == s.endedAt.value && s.reason.Some?)
    && (s.endedAt.Some? && !today ==> s.startedAt <= s.endedAt.value)
    && (s.endedAt.Some? && today ==> (s.startedAt <= s.endedAt.value <==> s.startedAt <= now))
    && 0 < s.uploaded < s.downloaded
  }

  /** The UTC day `offset` days ago, with the clock set. */
  function ClockOn(now: int, offset: nat, hour: int, minute: int, second: int): int {
    Midnight(now - offset * Day) + hour * Hour + minute * Minute + second * Second
  }

  /** A session ends after its duration, or now if that is earlier. */
  function ClippedEnd(startedAt: int, duration: int, now: int): int {
    if startedAt + duration * Minute > now then now else startedAt + duration * Minute
  }

  /** Clipping puts a session's end before its start exactly when it starts after now: never on
      an earlier day, whatever is drawn, but on today for some draws at every time of day up to
      the last hour drawn. */
  lemma EndPrecedesStartExactlyWhen(now: int, offset: nat, hour: int, minute: int, second: int, duration: int)
    requires 7 <= hour <= 22 && 0 <= minute <= 59 && 0 <= second <= 59 && 8 <= duration <= 210
    ensures
      var startedAt := ClockOn(now, offset, hour, minute, second);
      && (ClippedEnd(startedAt, duration, now) < startedAt <==> startedAt > now)
      && (offset >= 1 ==> startedAt <= now)
      && (offset == 0 && now % Day < 22 * Hour ==> ClockOn(now, 0, 22, 0, 0) > now)
  {
  }

  lemma DayAndClock(day: int, clock: int)
    requires 0 <= clock < Day
    ensures (Day * day + clock) / Day == day && (Day * day + clock) % Day == clock
    ensures clock % Second == 0 ==> (Day * day + clock) % Second == 0
  {
  }

  lemma EarlierDay(now: int, offset: nat)
    ensures (now - offset * Day) / Day == now / Day - offset && (now - offset * Day) % Day == now % Day
  {
    DayAndClock(now / Day - offset, now % Day);
  }

  /** On whichever day the clock is set, that is the day, and the clock shows what was set. */
  lemma ClockOnDay(now: int, offset: nat, hour: int, minute: int, second: int)
    requires 7 <= hour <= 22 && 0 <= minute <= 59 && 0 <= second <= 59
    ensures
      var t := ClockOn(now, offset, hour, minute, second);
      t / Day == now / Day - offset && t % Day == hour * Hour + minute * Minute + second * Second && t % Second == 0
  {
    EarlierDay(now, offset);
    DayAndClock(now / Day - offset, hour * Hour + minute * Minute + second * Second);
  }

  /** A session of the day `offset` days ago that has ended: it began on that day, between seven
      in the morning and eleven at night, and lasted as drawn unless cut off now. */
  predicate EndedOn(startedAt: int, endedAt: int, now: int, offset: nat) {
    && startedAt / Day == now / Day - offset && 7 * Hour <= startedAt % Day < 23 * Hour && startedAt % Second == 0
    && (endedAt == now || 8 * Minute <= endedAt - startedAt <= 210 * Minute)
  }

  /** A live one: begun within the last two and a half hours, active in the last twelve minutes. */
  predicate LiveSince(startedAt: int, lastActivityAt: int, now: int) {
    5 * Minute <= now - startedAt <= 150 * Minute && 0 <= now - lastActivityAt <= 12 * Minute
  }

  predicate Timed(s: GuestSession, now: int, offset: nat) {
    if s.endedAt.Some? then EndedOn(s.startedAt, s.endedAt.value, now, offset)
    else offset == 0 && LiveSince(s.startedAt, s.lastActivityAt, now)
  }

  lemma EndedOnDay(now: int, offset: nat, hour: int, minute: int, second: int, duration: int)
    requires 7 <= hour <= 22 && 0 <= minute <= 59 && 0 <= second <= 59 && 8 <= duration <= 210
    ensures
      var t := ClockOn(now, offset, hour, minute, second);
      var end := ClippedEnd(t, duration, now);
      && EndedOn(t, end, now, offset) && end <= now && (t <= end <==> t <= now)
      && (offset >= 1 ==> t <= end)
  {
    ClockOnDay(now, offset, hour, minute, second);
    EndPrecedesStartExactlyWhen(now, offset, hour, minute, second, duration);
  }

  predicate Metered(uploaded: int, downloaded: int) {
    && 20 * BytesPerMb <= downloaded <= 2200 * BytesPerMb && 2 * BytesPerMb <= uploaded < downloaded
    && (uploaded <= 3 * BytesPerMb || 6 * uploaded <= downloaded)
  }

  lemma MetersRead(up: int, down: int)
    requires 20 <= down <= 2200 && 2 <= up <= if down / 6 > 3 then down / 6 else 3
    ensures Metered(up * BytesPerMb, down * BytesPerMb)
  {
    assert up <= 3 || 6 * up <= down;
  }

  /** Why it ended goes with how it ended. */
  predicate Explained(s: GuestSession) {
    match s.status
    case Active => s.reason == None
    case Disconnected => s.reason == Some("guest_disconnected")
    case Expired => s.reason == Some("session_timeout")
    case Terminated => s.reason == Some("admin_terminated")
  }

  /** Where sessions take place, on which routers, and whose they may be. */
  datatype Place = Place(organization: int, location: int, routers: seq<int>, guests: seq<int>)

  /** A sound session of this place. */
  predicate OwnSession(s: GuestSession, now: int, offset: nat, p: Place) {
    && Sound(s, now, offset == 0) && Timed(s, now, offset) && Explained(s)
    && Metered(s.uploaded, s.downloaded)
    && s.organization == p.organization && s.location == p.location
    && s.router in p.routers && s.guest in p.guests
  }

  method DrawSession(now: int, offset: nat, p: Place) returns (s: GuestSession)
    requires p.guests != [] && p.routers != []
    ensures OwnSession(s, now, offset, p)
  {
    var g := RandomInt(0, |p.guests| - 1);
    var r := RandomInt(0, |p.routers| - 1);
    var hour := RandomInt(7, 22);
    var minute := RandomInt(0, 59);
    var second := RandomInt(0, 59);
    var startedAt := ClockOn(now, offset, hour, minute, second);
    var duration := RandomInt(8, 210);
    EndedOnDay(now, offset, hour, minute, second, duration);

    var coin := Chance();
    var endedAt: Option<int>;
    var status, lastActivityAt, reason;
    if offset == 0 && coin {
      var ago := RandomInt(5, 150);
      startedAt := now - ago * Minute;
      endedAt := None;
      status := Active;
      var idle := RandomInt(0, 12);
      lastActivityAt := now - idle * Minute;
      reason := None;
    } else {
      var end := startedAt + duration * Minute;
      if end > now { end := now; }
      assert end == ClippedEnd(startedAt, duration, now);
      endedAt := Some(end);
      var roll := RandomInt(0, 99);
      if roll < 85 {
        status, reason := Disconnected, Some("guest_disconnected");
      } else if roll < 96 {
        status, reason := Expired, Some("session_timeout");
      } else {
        status, reason := Terminated, Some("admin_terminated");
      }
      lastActivityAt := end;
    }
    var downMb := RandomInt(20, 2200);
    var upMb := RandomInt(2, if downMb / 6 > 3 then downMb / 6 else 3);
    MetersRead(upMb, downMb);
    s := GuestSession(p.guests[g], p.routers[r], p.location, p.organization, status, startedAt, endedAt, lastActivityAt,
                      upMb * BytesPerMb, downMb * BytesPerMb, reason);
  }

  // ----- the books -----

  function Actives(ss: seq<GuestSession>): nat {
    if ss == [] then 0 else Actives(ss[..|ss| - 1]) + if ss[|ss| - 1].status == Active then 1 else 0
  }

  /** The successful login rows, in order. */
  function Successes(ls: seq<Login>): seq<Login> {
    if ls == [] then [] else Successes(ls[..|ls| - 1]) + if ls[|ls| - 1].success then [ls[|ls| - 1]] else []
  }

  function Failures(ls: seq<Login>): nat {
    if ls == [] then 0 else Failures(ls[..|ls| - 1]) + if ls[|ls| - 1].success then 0 else 1
  }

  function LoginOf(s: GuestSession): Login { Login(Some(s.guest), s.organization, s.location, true, s.startedAt) }

  function LoginsOf(ss: seq<GuestSession>): seq<Login> {
    if ss == [] then [] else LoginsOf(ss[..|ss| - 1]) + [LoginOf(ss[|ss| - 1])]
  }

  /** A failed attempt goes with the success before it: same place, one to four minutes earlier,
      no guest. */
  predicate AttemptFor(failed: Login, success: Login) {
    && !failed.success && success.success && failed.guest.None?
    && failed.organization == success.organization && failed.location == success.location
    && Minute <= success.attemptedAt - failed.attemptedAt <= 4 * Minute
  }

  ghost predicate Orderly(ls: seq<Login>) {
    forall j :: 0 <= j < |ls| && !ls[j].success ==> j > 0 && AttemptFor(ls[j], ls[j - 1])
  }

  /** One successful login per session, in order, at its start; at most one failure each. */
  ghost predicate Balanced(ss: seq<GuestSession>, ls: seq<Login>) {
    Successes(ls) == LoginsOf(ss) && Failures(ls) <= |ss| && |ls| == |ss| + Failures(ls) && Orderly(ls)
  }

  lemma OrderlyConcat(a: seq<Login>, b: seq<Login>)
    requires Orderly(a) && Orderly(b)
    ensures Orderly(a + b)
  {
    forall j | 0 <= j < |a + b| && !(a + b)[j].success
      ensures j > 0 && AttemptFor((a + b)[j], (a + b)[j - 1])
    {
      if j >= |a| {
        assert !b[j - |a|].success;
      }
    }
  }

  lemma LoginAppended(ls: seq<Login>, l: Login)
    ensures Successes(ls + [l]) == Successes(ls) + if l.success then [l] else []
    ensures Failures(ls + [l]) == Failures(ls) + if l.success then 0 else 1
  {
  }

  lemma SessionAppended(ss: seq<GuestSession>, s: GuestSession)
    ensures LoginsOf(ss + [s]) == LoginsOf(ss) + [LoginOf(s)]
    ensures Actives(ss + [s]) == Actives(ss) + if s.status == Active then 1 else 0
  {
  }

  lemma {:induction false} LoginsConcat(a: seq<Login>, b: seq<Login>)
    ensures Successes(a + b) == Successes(a) + Successes(b) && Failures(a + b) == Failures(a) + Failures(b)
    decreases b
  {
    if b == [] {
      AddNothing(a);
      AddNothing(Successes(a));
    } else {
      var n := |b| - 1;
      LoginsConcat(a, b[..n]);
      LoginAppended(a + b[..n], b[n]);
      LastApart(a, b);
      Associate(Successes(a), Successes(b[..n]), if b[n].success then [b[n]] else []);
    }
  }

  lemma {:induction false} SessionsConcat(a: seq<GuestSession>, b: seq<GuestSession>)
    ensures LoginsOf(a + b) == LoginsOf(a) + LoginsOf(b) && Actives(a + b) == Actives(a) + Actives(b)
    decreases b
  {
    if b == [] {
      AddNothing(a);
      AddNothing(LoginsOf(a));
    } else {
      var n := |b| - 1;
      SessionsConcat(a, b[..n]);
      SessionAppended(a + b[..n], b[n]);
      LastApart(a, b);
      Associate(LoginsOf(a), LoginsOf(b[..n]), [LoginOf(b[n])]);
    }
  }

  /** Balanced books put together are balanced. */
  lemma BalancedConcat(ss: seq<GuestSession>, ls: seq<Login>, ts: seq<GuestSession>, ms: seq<Login>)
    requires Balanced(ss, ls) && Balanced(ts, ms)
    ensures Balanced(ss + ts, ls + ms)
  {
    LoginsConcat(ls, ms);
    SessionsConcat(ss, ts);
    OrderlyConcat(ls, ms);
  }

  /** A venue's sessions on one day: as many as that day brings, all sound, all its own. */
  ghost predicate VenueDay(ss: seq<GuestSession>, now: int, offset: nat, weekendHeavy: bool, p: Place) {
    && FewestPerDay <= |ss| <= MostPerDay + 2 && Volume(|ss|, weekendHeavy, now / Day - offset)
    && AllOwn(ss, now, offset, p)
  }

  ghost predicate AllOwn(ss: seq<GuestSession>, now: int, offset: nat, p: Place) {
    forall i :: 0 <= i < |ss| ==> OwnSession(ss[i], now, offset, p)
  }

  lemma {:induction false} LoginsFollow(ss: seq<GuestSession>, i: nat)
    requires i < |ss|
    ensures |LoginsOf(ss)| == |ss| && LoginsOf(ss)[i] == LoginOf(ss[i])
    decreases ss
  {
    if |ss| > 1 {
      LoginsFollow(ss[..|ss| - 1], if i < |ss| - 1 then i else 0);
    }
  }

  /** In balanced books the i-th successful login is the i-th session's: its guest, its place,
      at the moment it starts. */
  lemma {:induction false} LoginPerSession(ss: seq<GuestSession>, ls: seq<Login>, i: nat)
    requires Balanced(ss, ls) && i < |ss|
    ensures
      var ok := Successes(ls);
      && |ok| == |ss| && ok[i].success && ok[i].guest == Some(ss[i].guest) && ok[i].attemptedAt == ss[i].startedAt
      && ok[i].organization == ss[i].organization && ok[i].location == ss[i].location
  {
    LoginsFollow(ss, i);
  }

  // ----- rows by place and day -----

  predicate Falls(s: GuestSession, location: int, day: int, ended: bool) {
    s.location == location && s.startedAt / Day == day && s.endedAt.Some? == ended
  }

  /** How many rows are of this location, start on this day, and have ended or not. */
  function CountOn(ss: seq<GuestSession>, location: int, day: int, ended: bool): nat {
    if ss == [] then 0
    else CountOn(ss[..|ss| - 1], location, day, ended) + if Falls(ss[|ss| - 1], location, day, ended) then 1 else 0
  }

  lemma {:induction false} CountOnConcat(a: seq<GuestSession>, b: seq<GuestSession>, location: int, day: int,
                                         ended: bool)
    ensures CountOn(a + b, location, day, ended) == CountOn(a, location, day, ended) + CountOn(b, location, day, ended)
    decreases b
  {
    if b == [] {
      AddNothing(a);
    } else {
      CountOnConcat(a, b[..|b| - 1], location, day, ended);
      LastApart(a, b);
    }
  }

  lemma {:induction false} CountOnAll(ss: seq<GuestSession>, location: int, day: int, ended: bool, all: bool)
    requires forall i :: 0 <= i < |ss| ==> Falls(ss[i], location, day, ended) == all
    ensures CountOn(ss, location, day, ended) == if all then |ss| else 0
    decreases ss
  {
    if ss != [] {
      CountOnAll(ss[..|ss| - 1], location, day, ended, all);
    }
  }

  /** Among the rows starting on an earlier day, those that have ended are exactly those generated
      for that day; a live one started yesterday only if now is within two and a half hours of
      midnight. */
  lemma {:induction false} OwnFalls(s: GuestSession, now: int, offset: nat, p: Place, location: int, k: nat)
    requires OwnSession(s, now, offset, p) && k >= 1
    ensures Falls(s, location, now / Day - k, true) <==> p.location == location && offset == k
    ensures k >= 2 || now % Day >= 150 * Minute ==> !Falls(s, location, now / Day - k, false)
  {
  }

  /** The live session drawn with this many minutes since its start began yesterday exactly when
      the day is younger than that. */
  lemma LiveSinceYesterdayExactlyWhen(now: int, ago: int)
    requires 5 <= ago <= 150
    ensures (now - ago * Minute) / Day == now / Day - 1 <==> now % Day < ago * Minute
    ensures (now - ago * Minute) / Day == now / Day <==> now % Day >= ago * Minute
  {
  }

  /** Of these rows, `n` ended ones are of this location and start `k` days ago, and no live one
      unless that is yesterday and now is within two and a half hours of midnight. */
  predicate Tally(ss: seq<GuestSession>, location: int, now: int, k: nat, n: nat) {
    && CountOn(ss, location, now / Day - k, true) == n
    && (k >= 2 || now % Day >= 150 * Minute ==> CountOn(ss, location, now / Day - k, false) == 0)
  }

  lemma {:induction false} TallyConcat(a: seq<GuestSession>, b: seq<GuestSession>, location: int, now: int, k: nat,
                                       m: nat, n: nat)
    requires Tally(a, location, now, k, m) && Tally(b, location, now, k, n)
    ensures Tally(a + b, location, now, k, m + n)
  {
    CountOnConcat(a, b, location, now / Day - k, true);
    CountOnConcat(a, b, location, now / Day - k, false);
  }

  lemma {:induction false} VenueDayCounted(ss: seq<GuestSession>, now: int, offset: nat, p: Place, location: int,
                                           k: nat)
    requires AllOwn(ss, now, offset, p) && k >= 1
    ensures Tally(ss, location, now, k, if p.location == location && offset == k then |ss| else 0)
  {
    var day := now / Day - k;
    forall i | 0 <= i < |ss|
      ensures Falls(ss[i], location, day, true) == (p.location == location && offset == k)
      ensures k >= 2 || now % Day >= 150 * Minute ==> !Falls(ss[i], location, day, false)
    {
      OwnFalls(ss[i], now, offset, p, location, k);
    }
    CountOnAll(ss, location, day, true, p.location == location && offset == k);
    if k >= 2 || now % Day >= 150 * Minute {
      CountOnAll(ss, location, day, false, false);
    }
  }

  /** One more session with its login rows. */
  lemma BooksGrow(ss: seq<GuestSession>, ls: seq<Login>, s: GuestSession, more: seq<Login>, now: int, offset: nat,
                  p: Place)
    requires AllOwn(ss, now, offset, p) && Balanced(ss, ls)
    requires OwnSession(s, now, offset, p) && Balanced([s], more)
    ensures AllOwn(ss + [s], now, offset, p) && Balanced(ss + [s], ls + more)
    ensures Actives(ss + [s]) == Actives(ss) + Actives([s])
  {
    BalancedConcat(ss, ls, [s], more);
    SessionsConcat(ss, [s]);
  }
}

/** Seeding over the repositories, each a map on its natural key. */
module SeedDemo {
  import opened Wrappers
  import opened Clock
  import opened DemoTraffic

  /** The natural keys the script looks up, among all others. */
  datatype OrganizationSlug = WyfyDemo | OtherOrganization(slug: string)
  datatype Email = DemoUser | OtherUser(email: string)
  datatype RoleSlug = OrganizationAdmin | OtherRole(slug: string)
  datatype MemberStatus = ActiveMember | OtherStatus(status: string)
  datatype LocationSlug = BrewAndBytesCafe | GrandHorizonHotel | NexusCoworkingHub | OtherLocation(slug: string)

  datatype LocationSpec = LocationSpec(slug: LocationSlug, weekendHeavy: bool)

  const Specs: seq<LocationSpec> :=
    [LocationSpec(BrewAndBytesCafe, true), LocationSpec(GrandHorizonHotel, true),
        LocationSpec(NexusCoworkingHub, false)]

  const RoutersPerLocation: nat := 2
  const GuestPoolSize: nat := 48

  datatype Template = Template(system: bool, live: bool)

  const PageSize: nat := 100

  /** Location and router number, printed into the serial. */
  type Serial = (nat, nat)

  class Repositories {
    var organizations: map<OrganizationSlug, int>
    var users: map<Email, int>
    var roles: map<RoleSlug, int>
    var assignments: set<(int, int, int)>
    var memberships: map<(int, int), MemberStatus>
    var templates: seq<Template> // newest first
    var locations: map<(int, LocationSlug), int>
    var routers: map<Serial, int>
    var guests: map<(int, nat), int>
    var devices: map<nat, int>
    var sessions: seq<GuestSession>
    var logins: seq<Login>
    var snapshots: seq<Snapshot>
    var nextId: int
  }

  class SeedResult {
    var locationsCreated: nat
    var routersCreated: nat
    var guestsCreated: nat
    var devicesCreated: nat
    var sessionsCreated: nat
    var activeSessions: nat
    var loginsCreated: nat
    var snapshotsCreated: nat
    var trafficSkipped: bool

    constructor ()
      ensures locationsCreated == routersCreated == guestsCreated == devicesCreated == 0
      ensures sessionsCreated == activeSessions == loginsCreated == snapshotsCreated == 0 && !trafficSkipped
    {
      locationsCreated, routersCreated, guestsCreated, devicesCreated := 0, 0, 0, 0;
      sessionsCreated, activeSessions, loginsCreated, snapshotsCreated := 0, 0, 0, 0;
      trafficSkipped := false;
    }
  }

  // ----- traffic -----

  /** One session with its login rows. */
  method OneSession(db: Repositories, result: SeedResult, now: int, offset: nat, p: Place)
    returns (ghost s: GuestSession, ghost ls: seq<Login>)
    requires p.routers != [] && p.guests != []
    modifies db`sessions, db`logins, result`sessionsCreated, result`activeSessions, result`loginsCreated
    ensures db.sessions == old(db.sessions) + [s] && db.logins == old(db.logins) + ls
    ensures OwnSession(s, now, offset, p) && Balanced([s], ls)
    ensures result.sessionsCreated == old(result.sessionsCreated) + 1
    ensures result.activeSessions == old(result.activeSessions) + Actives([s])
    ensures result.loginsCreated == old(result.loginsCreated) + |ls|
  {
    var drawn := DrawSession(now, offset, p);
    s := drawn;
    db.sessions := db.sessions + [drawn];
    result.sessionsCreated := result.sessionsCreated + 1;
    if drawn.status == Active { result.activeSessions := result.activeSessions + 1; }
    db.logins := db.logins + [LoginOf(drawn)];
    result.loginsCreated := result.loginsCreated + 1;
    ls := [LoginOf(drawn)];
    OneBalanced(drawn);
    var unlucky := Chance();
    if unlucky {
      var before := RandomInt(1, 4);
      var failed := Login(None, p.organization, p.location, false, drawn.startedAt - before * Minute);
      db.logins := db.logins + [failed];
      result.loginsCreated := result.loginsCreated + 1;
      ls := ls + [failed];
      FailureBalanced(drawn, failed);
    }
  }

  lemma OneBalanced(s: GuestSession)
    ensures Balanced([s], [LoginOf(s)]) && Actives([s]) == if s.status == Active then 1 else 0
  {
    SessionAppended([], s);
    LoginAppended([], LoginOf(s));
    AddNothing([s]);
    AddNothing([LoginOf(s)]);
  }

  lemma FailureBalanced(s: GuestSession, failed: Login)
    requires AttemptFor(failed, LoginOf(s))
    ensures Balanced([s], [LoginOf(s)] + [failed])
  {
    OneBalanced(s);
    LoginAppended([LoginOf(s)], failed);
    AddNothing(Successes([LoginOf(s)]));
  }

  /** One venue, one day. */
  method VenueTraffic(db: Repositories, result: SeedResult, now: int, offset: nat, weekendHeavy: bool, p: Place)
    returns (ghost ss: seq<GuestSession>, ghost ls: seq<Login>)
    requires p.routers != [] && p.guests != []
    modifies db`sessions, db`logins, result`sessionsCreated, result`activeSessions, result`loginsCreated
    ensures db.sessions == old(db.sessions) + ss && db.logins == old(db.logins) + ls
    ensures VenueDay(ss, now, offset, weekendHeavy, p) && Balanced(ss, ls)
    ensures result.sessionsCreated == old(result.sessionsCreated) + |ss|
    ensures result.activeSessions == old(result.activeSessions) + Actives(ss)
    ensures result.loginsCreated == old(result.loginsCreated) + |ls|
  {
    var count := SessionsForDay(weekendHeavy, now - offset * Day);
    EarlierDay(now, offset);
    ss, ls := [], [];
    for k := 0 to count
      invariant |ss| == k && db.sessions == old(db.sessions) + ss && db.logins == old(db.logins) + ls
      invariant AllOwn(ss, now, offset, p) && Balanced(ss, ls)
      invariant result.sessionsCreated == old(result.sessionsCreated) + |ss|
      invariant result.activeSessions == old(result.activeSessions) + Actives(ss)
      invariant result.loginsCreated == old(result.loginsCreated) + |ls|
    {
      ghost var s, more := OneSession(db, result, now, offset, p);
      BooksGrow(ss, ls, s, more, now, offset, p);
      Associate(old(db.sessions), ss, [s]);
      Associate(old(db.logins), ls, more);
      ss, ls := ss + [s], ls + more;
    }
  }

  /** A venue's sessions on the day `offset` days ago. */
  datatype Batch = Batch(offset: nat, venue: nat, sessions: seq<GuestSession>)

  function AllSessions(bs: seq<Batch>): seq<GuestSession> {
    if bs == [] then [] else AllSessions(bs[..|bs| - 1]) + bs[|bs| - 1].sessions
  }

  function WholeMonth(days: seq<seq<Batch>>): seq<GuestSession> {
    if days == [] then [] else WholeMonth(days[..|days| - 1]) + AllSessions(days[|days| - 1])
  }

  lemma BatchAppended(bs: seq<Batch>, b: Batch)
    ensures AllSessions(bs + [b]) == AllSessions(bs) + b.sessions
  {
  }

  lemma DayAppended(days: seq<seq<Batch>>, bs: seq<Batch>)
    ensures WholeMonth(days + [bs]) == WholeMonth(days) + AllSessions(bs)
  {
  }

  /** The venues of a run, with their routers, and the guests to draw from. */
  datatype Venues = Venues(organization: int, locations: seq<int>, routers: seq<seq<int>>, guests: seq<int>)

  predicate Matched(vs: Venues) { |vs.locations| == |vs.routers| == |Specs| }

  function PlaceOf(vs: Venues, venue: nat): Place
    requires Matched(vs) && venue < |Specs|
  {
    Place(vs.organization, vs.locations[venue], vs.routers[venue], vs.guests)
  }

  ghost predicate BatchOk(b: Batch, now: int, offset: nat, venue: nat, vs: Venues)
    requires Matched(vs) && venue < |Specs|
  {
    && b.offset == offset && b.venue == venue
    && if vs.routers[venue] == [] then b.sessions == []
       else VenueDay(b.sessions, now, offset, Specs[venue].weekendHeavy, PlaceOf(vs, venue))
  }

  /** One batch per venue, in order. */
  ghost predicate DayOk(bs: seq<Batch>, now: int, offset: nat, vs: Venues)
    requires Matched(vs)
  {
    |bs| <= |Specs| && forall v :: 0 <= v < |bs| ==> BatchOk(bs[v], now, offset, v, vs)
  }

  /** Thirty-one days, oldest first. */
  ghost predicate MonthOk(days: seq<seq<Batch>>, now: int, vs: Venues)
    requires Matched(vs)
  {
    |days| <= TrafficDays + 1 && forall d :: 0 <= d < |days| ==>
        |days[d]| == |Specs| && DayOk(days[d], now, TrafficDays - d, vs)
  }

  lemma BatchGrows(bs: seq<Batch>, ls: seq<Login>, b: Batch, more: seq<Login>)
    requires Balanced(AllSessions(bs), ls) && Balanced(b.sessions, more)
    ensures AllSessions(bs + [b]) == AllSessions(bs) + b.sessions && Balanced(AllSessions(bs + [b]), ls + more)
    ensures Actives(AllSessions(bs + [b])) == Actives(AllSessions(bs)) + Actives(b.sessions)
  {
    BatchAppended(bs, b);
    BalancedConcat(AllSessions(bs), ls, b.sessions, more);
    SessionsConcat(AllSessions(bs), b.sessions);
  }

  method DayTraffic(db: Repositories, result: SeedResult, now: int, offset: nat, vs: Venues)
    returns (ghost bs: seq<Batch>, ghost ls: seq<Login>)
    requires Matched(vs) && vs.guests != []
    modifies db`sessions, db`logins, result`sessionsCreated, result`activeSessions, result`loginsCreated
    ensures |bs| == |Specs| && DayOk(bs, now, offset, vs)
    ensures db.sessions == old(db.sessions) + AllSessions(bs) && db.logins == old(db.logins) + ls
            && Balanced(AllSessions(bs), ls)
    ensures result.sessionsCreated == old(result.sessionsCreated) + |AllSessions(bs)|
    ensures result.activeSessions == old(result.activeSessions) + Actives(AllSessions(bs))
    ensures result.loginsCreated == old(result.loginsCreated) + |ls|
  {
    bs, ls := [], [];
    for v := 0 to |Specs|
      invariant |bs| == v && DayOk(bs, now, offset, vs)
      invariant db.sessions == old(db.sessions) + AllSessions(bs) && db.logins == old(db.logins) + ls
      invariant Balanced(AllSessions(bs), ls)
      invariant result.sessionsCreated == old(result.sessionsCreated) + |AllSessions(bs)|
      invariant result.activeSessions == old(result.activeSessions) + Actives(AllSessions(bs))
      invariant result.loginsCreated == old(result.loginsCreated) + |ls|
    {
      ghost var b, more := VenueBatch(db, result, now, offset, vs, v);
      BatchGrows(bs, ls, b, more);
      Associate(old(db.sessions), AllSessions(bs), b.sessions);
      Associate(old(db.logins), ls, more);
      DayGrows(bs, b, now, offset, vs);
      bs, ls := bs + [b], ls + more;
    }
  }

  lemma DayGrows(bs: seq<Batch>, b: Batch, now: int, offset: nat, vs: Venues)
    requires Matched(vs) && |bs| < |Specs| && DayOk(bs, now, offset, vs) && BatchOk(b, now, offset, |bs|, vs)
    ensures DayOk(bs + [b], now, offset, vs)
  {
  }

  /** One venue's day, or nothing where it has no routers. */
  method VenueBatch(db: Repositories, result: SeedResult, now: int, offset: nat, vs: Venues, v: nat)
    returns (ghost b: Batch, ghost ls: seq<Login>)
    requires Matched(vs) && vs.guests != [] && v < |Specs|
    modifies db`sessions, db`logins, result`sessionsCreated, result`activeSessions, result`loginsCreated
    ensures db.sessions == old(db.sessions) + b.sessions && db.logins == old(db.logins) + ls
    ensures BatchOk(b, now, offset, v, vs) && Balanced(b.sessions, ls)
    ensures result.sessionsCreated == old(result.sessionsCreated) + |b.sessions|
    ensures result.activeSessions == old(result.activeSessions) + Actives(b.sessions)
    ensures result.loginsCreated == old(result.loginsCreated) + |ls|
  {
    ghost var ss := [];
    ls := [];
    if vs.routers[v] == [] {
      AddNothing(db.sessions);
      AddNothing(db.logins);
    } else {
      ss, ls := VenueTraffic(db, result, now, offset, Specs[v].weekendHeavy, PlaceOf(vs, v));
    }
    b := Batch(offset, v, ss);
  }

  method MonthTraffic(db: Repositories, result: SeedResult, now: int, vs: Venues)
    returns (ghost days: seq<seq<Batch>>, ghost ls: seq<Login>)
    requires Matched(vs) && vs.guests != []
    modifies db`sessions, db`logins, result`sessionsCreated, result`activeSessions, result`loginsCreated
    ensures |days| == TrafficDays + 1 && MonthOk(days, now, vs)
    ensures db.sessions == old(db.sessions) + WholeMonth(days) && db.logins == old(db.logins) + ls
            && Balanced(WholeMonth(days), ls)
    ensures result.sessionsCreated == old(result.sessionsCreated) + |WholeMonth(days)|
    ensures result.activeSessions == old(result.activeSessions) + Actives(WholeMonth(days))
    ensures result.loginsCreated == old(result.loginsCreated) + |ls|
  {
    days, ls := [], [];
    var offset: int := TrafficDays;
    while offset >= 0
      invariant -1 <= offset <= TrafficDays && |days| == TrafficDays - offset && MonthOk(days, now, vs)
      invariant db.sessions == old(db.sessions) + WholeMonth(days) && db.logins == old(db.logins) + ls
      invariant Balanced(WholeMonth(days), ls)
      invariant result.sessionsCreated == old(result.sessionsCreated) + |WholeMonth(days)|
      invariant result.activeSessions == old(result.activeSessions) + Actives(WholeMonth(days))
      invariant result.loginsCreated == old(result.loginsCreated) + |ls|
    {
      ghost var bs, more := DayTraffic(db, result, now, offset, vs);
      BalancedConcat(WholeMonth(days), ls, AllSessions(bs), more);
      SessionsConcat(WholeMonth(days), AllSessions(bs));
      Associate(old(db.sessions), WholeMonth(days), AllSessions(bs));
      Associate(old(db.logins), ls, more);
      DayAppended(days, bs);
      MonthGrows(days, bs, now, vs);
      days, ls := days + [bs], ls + more;
      offset := offset - 1;
    }
  }

  lemma MonthGrows(days: seq<seq<Batch>>, bs: seq<Batch>, now: int, vs: Venues)
    requires Matched(vs) && MonthOk(days, now, vs) && |days| <= TrafficDays && |bs| == |Specs|
             && DayOk(bs, now, TrafficDays - |days|, vs)
    ensures MonthOk(days + [bs], now, vs)
  {
  }

  lemma {:induction false} DayVolume(bs: seq<Batch>, now: int, offset: nat, vs: Venues)
    requires Matched(vs) && DayOk(bs, now, offset, vs) && forall v :: 0 <= v < |Specs| ==> vs.routers[v] != []
    ensures FewestPerDay * |bs| <= |AllSessions(bs)| <= (MostPerDay + 2) * |bs|
    decreases bs
  {
    if bs != [] {
      DayBut(bs, now, offset, vs);
      DayVolume(bs[..|bs| - 1], now, offset, vs);
    }
  }

  /** With routers everywhere, every day brings three to eleven sessions per venue. */
  lemma {:induction false} MonthVolume(days: seq<seq<Batch>>, now: int, vs: Venues)
    requires Matched(vs) && MonthOk(days, now, vs) && forall v :: 0 <= v < |Specs| ==> vs.routers[v] != []
    ensures FewestPerDay * |Specs| * |days| <= |WholeMonth(days)| <= (MostPerDay + 2) * |Specs| * |days|
    decreases days
  {
    if days != [] {
      var n := |days| - 1;
      MonthVolume(days[..n], now, vs);
      assert DayOk(days[n], now, TrafficDays - n, vs);
      DayVolume(days[n], now, TrafficDays - n, vs);
    }
  }

  // ----- the month, row by row -----

  predicate DistinctPlaces(vs: Venues) {
    forall v, w :: 0 <= v < w < |vs.locations| ==> vs.locations[v] != vs.locations[w]
  }

  /** What venue `w` has on the day `k` days ago, counting the rows themselves by where they are
      and when they start: as many ended sessions as such a day brings, and no live one, unless it
      is yesterday and now is within two and a half hours of midnight. */
  ghost predicate DayServed(added: seq<GuestSession>, now: int, vs: Venues, w: nat, k: nat)
    requires Matched(vs) && w < |Specs|
  {
    var location, day := vs.locations[w], now / Day - k;
    && 3 <= CountOn(added, location, day, true) <= 11
    && Volume(CountOn(added, location, day, true), Specs[w].weekendHeavy, day)
    && (k >= 2 || now % Day >= 150 * Minute ==> CountOn(added, location, day, false) == 0)
  }

  ghost predicate MonthServed(added: seq<GuestSession>, now: int, vs: Venues)
    requires Matched(vs)
  {
    forall w, k :: 0 <= w < |Specs| && 1 <= k <= 30 ==> DayServed(added, now, vs, w, k)
  }

  lemma {:induction false} BatchCounted(b: Batch, now: int, offset: nat, v: nat, vs: Venues, w: nat, k: nat)
    requires Matched(vs) && v < |Specs| && w < |Specs| && BatchOk(b, now, offset, v, vs) && DistinctPlaces(vs) && k >= 1
    ensures Tally(b.sessions, vs.locations[w], now, k, if v == w && offset == k then |b.sessions| else 0)
  {
    assert v != w ==> vs.locations[v] != vs.locations[w];
    if b.sessions != [] {
      VenueDayCounted(b.sessions, now, offset, PlaceOf(vs, v), vs.locations[w], k);
    }
  }

  lemma {:induction false} DayBut(bs: seq<Batch>, now: int, offset: nat, vs: Venues)
    requires Matched(vs) && bs != [] && DayOk(bs, now, offset, vs)
    ensures DayOk(bs[..|bs| - 1], now, offset, vs) && BatchOk(bs[|bs| - 1], now, offset, |bs| - 1, vs)
  {
  }

  function DayTally(bs: seq<Batch>, offset: nat, w: nat, k: nat): nat {
    if w < |bs| && offset == k then |bs[w].sessions| else 0
  }

  lemma {:induction false} DayCounted(bs: seq<Batch>, now: int, offset: nat, vs: Venues, w: nat, k: nat)
    requires Matched(vs) && w < |Specs| && DayOk(bs, now, offset, vs) && DistinctPlaces(vs) && k >= 1
    ensures Tally(AllSessions(bs), vs.locations[w], now, k, DayTally(bs, offset, w, k))
    decreases bs
  {
    if bs != [] {
      var n := |bs| - 1;
      DayBut(bs, now, offset, vs);
      DayCounted(bs[..n], now, offset, vs, w, k);
      BatchCounted(bs[n], now, offset, n, vs, w, k);
      TallyConcat(AllSessions(bs[..n]), bs[n].sessions, vs.locations[w], now, k, DayTally(bs[..n], offset, w, k),
                  if n == w && offset == k then |bs[n].sessions| else 0);
    }
  }

  lemma {:induction false} MonthBut(days: seq<seq<Batch>>, now: int, vs: Venues)
    requires Matched(vs) && days != [] && MonthOk(days, now, vs)
    ensures MonthOk(days[..|days| - 1], now, vs)
    ensures |days| <= TrafficDays + 1 && DayOk(days[|days| - 1], now, TrafficDays - (|days| - 1), vs)
    ensures |days[|days| - 1]| == |Specs|
  {
  }

  /** The sessions of the one batch a venue and an earlier day are served by. */
  function MonthTally(days: seq<seq<Batch>>, w: nat, k: nat): nat
    requires k <= TrafficDays
  {
    if TrafficDays - k < |days| && w < |days[TrafficDays - k]| then |days[TrafficDays - k][w].sessions| else 0
  }

  lemma {:induction false} MonthTallyAdds(days: seq<seq<Batch>>, w: nat, k: nat, n: nat)
    requires |days| == n + 1 && n <= TrafficDays && k <= TrafficDays
    ensures MonthTally(days, w, k) == MonthTally(days[..n], w, k) + DayTally(days[n], TrafficDays - n, w, k)
  {
    var d := TrafficDays - k;
    if d < n {
      assert days[..n][d] == days[d];
    }
  }

  lemma {:induction false} MonthTallyStep(days: seq<seq<Batch>>, location: int, now: int, k: nat, n: nat,
                                          m: nat, t: nat)
    requires |days| == n + 1
    requires Tally(WholeMonth(days[..n]), location, now, k, m) && Tally(AllSessions(days[n]), location, now, k, t)
    ensures Tally(WholeMonth(days), location, now, k, m + t)
  {
    TallyConcat(WholeMonth(days[..n]), AllSessions(days[n]), location, now, k, m, t);
  }

  lemma {:induction false} MonthCounted(days: seq<seq<Batch>>, now: int, vs: Venues, w: nat, k: nat)
    requires Matched(vs) && w < |Specs| && MonthOk(days, now, vs) && DistinctPlaces(vs) && 1 <= k <= TrafficDays
    ensures Tally(WholeMonth(days), vs.locations[w], now, k, MonthTally(days, w, k))
    decreases days
  {
    if days != [] {
      var n := |days| - 1;
      MonthBut(days, now, vs);
      MonthCounted(days[..n], now, vs, w, k);
      DayCounted(days[n], now, TrafficDays - n, vs, w, k);
      MonthTallyAdds(days, w, k, n);
      MonthTallyStep(days, vs.locations[w], now, k, n, MonthTally(days[..n], w, k),
                     DayTally(days[n], TrafficDays - n, w, k));
    }
  }

  lemma {:induction false} MonthTallyIsVolume(days: seq<seq<Batch>>, now: int, vs: Venues, w: nat, k: nat)
    requires Matched(vs) && |days| == TrafficDays + 1 && MonthOk(days, now, vs)
    requires w < |Specs| && k <= TrafficDays && vs.routers[w] != []
    ensures
      var n := MonthTally(days, w, k);
      3 <= n <= 11 && Volume(n, Specs[w].weekendHeavy, now / Day - k)
  {
    var d := TrafficDays - k;
    assert |days[d]| == |Specs| && DayOk(days[d], now, TrafficDays - d, vs);
    assert BatchOk(days[d][w], now, k, w, vs);
  }

  lemma {:induction false} ServedWhen(ss: seq<GuestSession>, now: int, vs: Venues, w: nat, k: nat, n: nat)
    requires Matched(vs) && w < |Specs| && Tally(ss, vs.locations[w], now, k, n)
    requires 3 <= n <= 11 && Volume(n, Specs[w].weekendHeavy, now / Day - k)
    ensures DayServed(ss, now, vs, w, k)
  {
  }

  lemma {:induction false} OneDayIsServed(days: seq<seq<Batch>>, now: int, vs: Venues, w: nat, k: nat)
    requires Matched(vs) && |days| == TrafficDays + 1 && MonthOk(days, now, vs) && DistinctPlaces(vs)
    requires w < |Specs| && 1 <= k <= 30 && vs.routers[w] != []
    ensures DayServed(WholeMonth(days), now, vs, w, k)
  {
    MonthCounted(days, now, vs, w, k);
    MonthTallyIsVolume(days, now, vs, w, k);
    ServedWhen(WholeMonth(days), now, vs, w, k, MonthTally(days, w, k));
  }

  /** With routers everywhere, counting the rows finds every venue served on each of the thirty
      days before today. */
  lemma {:induction false} EveryDayIsServed(days: seq<seq<Batch>>, now: int, vs: Venues)
    requires Matched(vs) && |days| == TrafficDays + 1 && MonthOk(days, now, vs) && DistinctPlaces(vs)
    requires forall v :: 0 <= v < |Specs| ==> vs.routers[v] != []
    ensures MonthServed(WholeMonth(days), now, vs)
  {
    forall w, k | 0 <= w < |Specs| && 1 <= k <= 30
      ensures DayServed(WholeMonth(days), now, vs, w, k)
    {
      OneDayIsServed(days, now, vs, w, k);
    }
  }

  // ----- router health -----

  function Flat(routers: seq<seq<int>>): seq<int> {
    if routers == [] then []
    else Flat(routers[..|routers| - 1]) + routers[|routers| - 1]
  }

  /** The readings `from` down to 0, three hours apart. */
  function Readings(router: int, now: int, from: int): seq<Snapshot>
    decreases from + 1
  {
    if from < 0 then [] else [Snapshot(router, now - from * 3 * Hour)] + Readings(router, now, from - 1)
  }

  function HealthOf(rs: seq<int>, now: int): seq<Snapshot> {
    if rs == [] then [] else HealthOf(rs[..|rs| - 1], now) + Readings(rs[|rs| - 1], now, 8)
  }

  lemma HealthAppended(rs: seq<int>, r: int, now: int)
    ensures HealthOf(rs + [r], now) == HealthOf(rs, now) + Readings(r, now, 8)
  {
  }

  lemma {:induction false} HealthConcat(a: seq<int>, b: seq<int>, now: int)
    ensures HealthOf(a + b, now) == HealthOf(a, now) + HealthOf(b, now)
    decreases b
  {
    if b == [] {
      assert a + b == a;
    } else {
      var n := |b| - 1;
      HealthConcat(a, b[..n], now);
      HealthAppended(a + b[..n], b[n], now);
      LastApart(a, b);
      Associate(HealthOf(a, now), HealthOf(b[..n], now), Readings(b[n], now, 8));
    }
  }

  function CountFor(ss: seq<Snapshot>, router: int): nat {
    if ss == [] then 0 else (if ss[0].router == router then 1 else 0) + CountFor(ss[1..], router)
  }

  lemma {:induction false} CountConcat(a: seq<Snapshot>, b: seq<Snapshot>, router: int)
    ensures CountFor(a + b, router) == CountFor(a, router) + CountFor(b, router)
    decreases a
  {
    if a == [] {
      assert a + b == b;
    } else {
      assert (a + b)[1..] == a[1..] + b;
      CountConcat(a[1..], b, router);
    }
  }

  lemma {:induction false} ReadingsCount(router: int, now: int, from: int, other: int)
    requires from >= -1
    ensures |Readings(router, now, from)| == from + 1
    ensures CountFor(Readings(router, now, from), other) == if other == router then from + 1 else 0
    decreases from + 1
  {
    if from >= 0 {
      ReadingsCount(router, now, from - 1, other);
      assert Readings(router, now, from)[1..] == Readings(router, now, from - 1);
    }
  }

  /** The readings are three hours apart and the last is taken now. */
  lemma {:induction false} ReadingAt(router: int, now: int, from: int, i: nat)
    requires i <= from
    ensures |Readings(router, now, from)| == from + 1
    ensures Readings(router, now, from)[i].router == router
    ensures now - Readings(router, now, from)[i].recordedAt == 3 * Hour * (from - i)
    decreases from
  {
    ReadingsCount(router, now, from, router);
    if i > 0 {
      ReadingAt(router, now, from - 1, i - 1);
    }
  }

  function Occurrences(rs: seq<int>, r: int): nat {
    if rs == [] then 0 else Occurrences(rs[..|rs| - 1], r) + if rs[|rs| - 1] == r then 1 else 0
  }

  /** Nine snapshots per router. */
  lemma {:induction false} HealthCount(rs: seq<int>, now: int, router: int)
    ensures |HealthOf(rs, now)| == 9 * |rs| && CountFor(HealthOf(rs, now), router) == 9 * Occurrences(rs, router)
    decreases rs
  {
    if rs != [] {
      var n := |rs| - 1;
      HealthCount(rs[..n], now, router);
      ReadingsCount(rs[n], now, 8, router);
      CountConcat(HealthOf(rs[..n], now), Readings(rs[n], now, 8), router);
    }
  }

  method RouterHealth(db: Repositories, result: SeedResult, now: int, router: int)
    modifies db`snapshots, result`snapshotsCreated
    ensures db.snapshots == old(db.snapshots) + Readings(router, now, 8)
    ensures result.snapshotsCreated == old(result.snapshotsCreated) + 9
  {
    var h := 8;
    ghost var before := db.snapshots;
    ghost var done: seq<Snapshot> := [];
    while h >= 0
      invariant -1 <= h <= 8 && db.snapshots == before + done
                && done + Readings(router, now, h) == Readings(router, now, 8)
      invariant result.snapshotsCreated == old(result.snapshotsCreated) + 8 - h
    {
      var one := Snapshot(router, now - h * 3 * Hour);
      Associate(done, [one], Readings(router, now, h - 1));
      Associate(before, done, [one]);
      db.snapshots := db.snapshots + [one];
      done := done + [one];
      result.snapshotsCreated := result.snapshotsCreated + 1;
      h := h - 1;
    }
    assert done == Readings(router, now, 8);
  }

  method VenueHealth(db: Repositories, result: SeedResult, now: int, rs: seq<int>)
    modifies db`snapshots, result`snapshotsCreated
    ensures db.snapshots == old(db.snapshots) + HealthOf(rs, now)
    ensures result.snapshotsCreated == old(result.snapshotsCreated) + 9 * |rs|
  {
    ghost var before, created := db.snapshots, result.snapshotsCreated;
    for r := 0 to |rs|
      invariant db.snapshots == before + HealthOf(rs[..r], now)
      invariant result.snapshotsCreated == created + 9 * r
    {
      RouterHealth(db, result, now, rs[r]);
      HealthAppended(rs[..r], rs[r], now);
      OneMore(rs, r);
      Associate(before, HealthOf(rs[..r], now), Readings(rs[r], now, 8));
    }
    assert rs[..|rs|] == rs;
  }

  lemma FlatNext(routers: seq<seq<int>>, v: nat)
    requires v < |routers|
    ensures Flat(routers[..v + 1]) == Flat(routers[..v]) + routers[v]
  {
    assert routers[..v + 1][..v] == routers[..v];
  }

  method AllHealth(db: Repositories, result: SeedResult, now: int, routers: seq<seq<int>>)
    modifies db`snapshots, result`snapshotsCreated
    ensures db.snapshots == old(db.snapshots) + HealthOf(Flat(routers), now)
    ensures result.snapshotsCreated == old(result.snapshotsCreated) + 9 * |Flat(routers)|
  {
    ghost var before, created := db.snapshots, result.snapshotsCreated;
    for v := 0 to |routers|
      invariant db.snapshots == before + HealthOf(Flat(routers[..v]), now)
      invariant result.snapshotsCreated == created + 9 * |Flat(routers[..v])|
    {
      VenueHealth(db, result, now, routers[v]);
      FlatNext(routers, v);
      HealthConcat(Flat(routers[..v]), routers[v], now);
      Associate(before, HealthOf(Flat(routers[..v]), now), HealthOf(routers[v], now));
    }
    assert routers[..|routers|] == routers;
  }

  // ----- get or create -----

  /** What is looked up by natural key before it is created. */
  datatype Entities = Entities(
    organizations: map<OrganizationSlug, int>, users: map<Email, int>, roles: map<RoleSlug, int>,
    assignments: set<(int, int, int)>, memberships: map<(int, int), MemberStatus>, templates: seq<Template>,
    locations: map<(int, LocationSlug), int>, routers: map<Serial, int>)

  ghost function EntitiesOf(db: Repositories): Entities
    reads db
  {
    Entities(db.organizations, db.users, db.roles, db.assignments, db.memberships, db.templates, db.locations,
        db.routers)
  }

  datatype Activity = Activity(sessions: seq<GuestSession>, logins: seq<Login>, snapshots: seq<Snapshot>)

  ghost function ActivityOf(db: Repositories): Activity
    reads db
  {
    Activity(db.sessions, db.logins, db.snapshots)
  }

  /** Every row there is. */
  datatype Rows = Rows(entities: Entities, guests: map<(int, nat), int>, devices: map<nat, int>, activity: Activity)

  ghost function RowsOf(db: Repositories): Rows
    reads db
  {
    Rows(EntitiesOf(db), db.guests, db.devices, ActivityOf(db))
  }

  method EnsureOrganization(db: Repositories) returns (org: int, created: bool)
    modifies db`organizations, db`nextId
    ensures created <==> WyfyDemo !in old(db.organizations)
    ensures db.organizations == old(db.organizations)[WyfyDemo := org] && db.nextId >= old(db.nextId)
    ensures !created ==> db.organizations == old(db.organizations)
  {
    if WyfyDemo in db.organizations {
      assert db.organizations[WyfyDemo := db.organizations[WyfyDemo]] == db.organizations;
      return db.organizations[WyfyDemo], false;
    }
    org, created := db.nextId, true;
    db.nextId := db.nextId + 1;
    db.organizations := db.organizations[WyfyDemo := org];
  }

  method EnsureUser(db: Repositories) returns (user: int, created: bool)
    modifies db`users, db`nextId
    ensures created <==> DemoUser !in old(db.users)
    ensures db.users == old(db.users)[DemoUser := user] && db.nextId >= old(db.nextId)
    ensures !created ==> db.users == old(db.users)
  {
    if DemoUser in db.users {
      assert db.users[DemoUser := db.users[DemoUser]] == db.users;
      return db.users[DemoUser], false;
    }
    user, created := db.nextId, true;
    db.nextId := db.nextId + 1;
    db.users := db.users[DemoUser := user];
  }

  /** The user holds the admin role in the organization, if there is such a role. */
  predicate Appointed(roles: map<RoleSlug, int>, assignments: set<(int, int, int)>, user: int, org: int) {
    OrganizationAdmin in roles ==> (user, roles[OrganizationAdmin], org) in assignments
  }

  method EnsureRole(db: Repositories, user: int, org: int) returns (granted: bool)
    modifies db`assignments
    ensures Appointed(db.roles, db.assignments, user, org)
    ensures granted <==> !Appointed(db.roles, old(db.assignments), user, org)
    ensures !granted ==> db.assignments == old(db.assignments)
  {
    if OrganizationAdmin !in db.roles { return false; }
    var entry := (user, db.roles[OrganizationAdmin], org);
    if entry in db.assignments { return false; }
    db.assignments := db.assignments + {entry};
    return true;
  }

  method EnsureMembership(db: Repositories, user: int, org: int) returns (created: bool)
    modifies db`memberships
    ensures db.memberships == old(db.memberships)[(org, user) := ActiveMember]
    ensures created <==> !((org, user) in old(db.memberships) && old(db.memberships)[(org, user)] == ActiveMember)
    ensures !created ==> db.memberships == old(db.memberships)
  {
    if (org, user) in db.memberships && db.memberships[(org, user)] == ActiveMember {
      assert db.memberships[(org, user) := ActiveMember] == db.memberships;
      return false;
    }
    db.memberships := db.memberships[(org, user) := ActiveMember];
    return true;
  }

  /** The first page of templates, newest first, shows an active system template. */
  ghost predicate TemplateListed(ts: seq<Template>) {
    exists i :: 0 <= i < |ts| && i < PageSize && ts[i].system && ts[i].live
  }

  method EnsureTemplate(db: Repositories) returns (created: bool)
    modifies db`templates
    ensures TemplateListed(db.templates)
    ensures created <==> !TemplateListed(old(db.templates))
    ensures db.templates == if created then [Template(true, true)] + old(db.templates) else old(db.templates)
  {
    var i := 0;
    while i < |db.templates| && i < PageSize
      invariant 0 <= i <= |db.templates| && i <= PageSize && db.templates == old(db.templates)
      invariant forall k :: 0 <= k < i ==> !(db.templates[k].system && db.templates[k].live)
    {
      if db.templates[i].system && db.templates[i].live { return false; }
      i := i + 1;
    }
    db.templates := [Template(true, true)] + db.templates;
    assert db.templates[0] == Template(true, true);
    return true;
  }

  /** `after` has every entry of `before`, and `created` more. */
  ghost predicate Added<K, V>(before: map<K, V>, after: map<K, V>, created: nat) {
    && before.Keys <= after.Keys && (forall k :: k in before ==> after[k] == before[k])
    && |after| == |before| + created
  }

  lemma NoneAdded<K, V>(before: map<K, V>, after: map<K, V>)
    requires Added(before, after, 0)
    ensures after == before
  {
    Same(before.Keys, after.Keys);
  }

  lemma Same<T>(a: set<T>, b: set<T>)
    requires a <= b && |a| == |b|
    ensures a == b
  {
    assert a + (b - a) == b;
    assert |a + (b - a)| == |a| + |b - a|;
  }

  lemma AddedChain<K, V>(a: map<K, V>, b: map<K, V>, c: map<K, V>, m: nat, n: nat)
    requires Added(a, b, m) && Added(b, c, n)
    ensures Added(a, c, m + n)
  {
  }

  function LocationKey(org: int, k: nat): (int, LocationSlug)
    requires k < |Specs|
  {
    (org, Specs[k].slug)
  }

  ghost predicate AllLocations(table: map<(int, LocationSlug), int>, org: int) {
    forall k :: 0 <= k < |Specs| ==> LocationKey(org, k) in table
  }

  /** Each venue's location, in the specs' order. */
  ghost predicate LocationsAre(locations: seq<int>, table: map<(int, LocationSlug), int>, org: int) {
    && |locations| <= |Specs|
    && forall k :: 0 <= k < |locations| ==> LocationKey(org, k) in table && locations[k] == table[LocationKey(org, k)]
  }

  /** Nothing but this organization's spec locations has been added. */
  ghost predicate OnlySpecs(before: map<(int, LocationSlug), int>, after: map<(int, LocationSlug), int>, org: int) {
    forall key :: key in after && key !in before ==> exists k :: 0 <= k < |Specs| && key == LocationKey(org, k)
  }

  /** The ids in use are primary keys: all different, and all drawn before the next. */
  ghost predicate OwnIds<K>(table: map<K, int>, next: int) {
    && (forall a, b :: a in table && b in table && table[a] == table[b] ==> a == b)
    && forall a :: a in table ==> table[a] < next
  }

  lemma SpecsDiffer(i: nat, j: nat)
    requires i < j < |Specs|
    ensures Specs[i].slug != Specs[j].slug
  {
  }

  lemma LocationsDiffer(locations: seq<int>, table: map<(int, LocationSlug), int>, org: int, next: int)
    requires LocationsAre(locations, table, org) && OwnIds(table, next)
    ensures forall v, w :: 0 <= v < w < |locations| ==> locations[v] != locations[w]
  {
    forall v, w | 0 <= v < w < |locations|
      ensures locations[v] != locations[w]
    {
      SpecsDiffer(v, w);
      assert LocationKey(org, v) != LocationKey(org, w);
    }
  }

  /** What has become of the locations after the first specs. */
  ghost predicate PlacesGrown(a: map<(int, LocationSlug), int>, b: map<(int, LocationSlug), int>, org: int,
                              locations: seq<int>, created: nat)
  {
    && LocationsAre(locations, b, org) && Added(a, b, created) && OnlySpecs(a, b, org)
    && (AllLocations(a, org) ==> created == 0)
  }

  lemma PlaceFound(a: map<(int, LocationSlug), int>, b: map<(int, LocationSlug), int>, org: int, locations: seq<int>,
                   created: nat)
    requires PlacesGrown(a, b, org, locations, created) && |locations| < |Specs| && LocationKey(org, |locations|) in b
    ensures PlacesGrown(a, b, org, locations + [b[LocationKey(org, |locations|)]], created)
  {
  }

  lemma PlaceAdded(a: map<(int, LocationSlug), int>, b: map<(int, LocationSlug), int>, org: int, locations: seq<int>,
                   created: nat, id: int)
    requires PlacesGrown(a, b, org, locations, created) && |locations| < |Specs| && LocationKey(org, |locations|) !in b
    ensures PlacesGrown(a, b[LocationKey(org, |locations|) := id], org, locations + [id], created + 1)
  {
    var key := LocationKey(org, |locations|);
    assert key !in a;
  }

  lemma IdsStay<K>(table: map<K, int>, key: K, next: int)
    requires OwnIds(table, next) && key !in table
    ensures OwnIds(table[key := next], next + 1)
  {
  }

  /** One location per spec, in the specs' order; exactly the missing ones are created. */
  method EnsureLocations(db: Repositories, org: int) returns (locations: seq<int>, created: nat)
    modifies db`locations, db`nextId
    ensures |locations| == |Specs| && LocationsAre(locations, db.locations, org)
    ensures Added(old(db.locations), db.locations, created) && OnlySpecs(old(db.locations), db.locations, org)
    ensures AllLocations(old(db.locations), org) ==> created == 0
    ensures old(OwnIds(db.locations, db.nextId)) ==>
              forall v, w :: 0 <= v < w < |locations| ==> locations[v] != locations[w]
  {
    locations, created := [], 0;
    ghost var keyed := OwnIds(db.locations, db.nextId);
    for i := 0 to |Specs|
      invariant |locations| == i && PlacesGrown(old(db.locations), db.locations, org, locations, created)
      invariant keyed ==> OwnIds(db.locations, db.nextId)
    {
      var key := LocationKey(org, i);
      if key in db.locations {
        PlaceFound(old(db.locations), db.locations, org, locations, created);
        locations := locations + [db.locations[key]];
      } else {
        PlaceAdded(old(db.locations), db.locations, org, locations, created, db.nextId);
        if keyed { IdsStay(db.locations, key, db.nextId); }
        db.locations := db.locations[key := db.nextId];
        locations := locations + [db.nextId];
        db.nextId := db.nextId + 1;
        created := created + 1;
      }
    }
    if keyed { LocationsDiffer(locations, db.locations, org, db.nextId); }
  }

  function SerialOf(v: nat, r: nat): Serial { (v + 1, r + 1) }

  ghost predicate VenueRouters(table: map<Serial, int>, v: nat) {
    forall r: nat :: r < RoutersPerLocation ==> SerialOf(v, r) in table
  }

  ghost predicate AllRouters(table: map<Serial, int>) { forall v: nat :: v < |Specs| ==> VenueRouters(table, v) }

  /** The venue's routers, in order. */
  ghost predicate RoutersAre(routers: seq<int>, table: map<Serial, int>, v: nat) {
    forall r: nat :: r < |routers| ==> SerialOf(v, r) in table && routers[r] == table[SerialOf(v, r)]
  }

  /** Two routers for every venue, in the specs' order. */
  ghost predicate AllRoutersAre(routers: seq<seq<int>>, table: map<Serial, int>) {
    forall v: nat :: v < |routers| ==> |routers[v]| == RoutersPerLocation && RoutersAre(routers[v], table, v)
  }

  /** Nothing but serials of the first `n` venues has been added. */
  ghost predicate OnlySerials(before: map<Serial, int>, after: map<Serial, int>, n: nat) {
    forall key :: key in after && key !in before ==> 1 <= key.0 <= n && 1 <= key.1 <= RoutersPerLocation
  }

  method EnsureVenueRouters(db: Repositories, v: nat) returns (routers: seq<int>, created: nat)
    modifies db`routers, db`nextId
    ensures |routers| == RoutersPerLocation && RoutersAre(routers, db.routers, v)
    ensures Added(old(db.routers), db.routers, created) && OnlySerials(old(db.routers), db.routers, v + 1)
    ensures VenueRouters(old(db.routers), v) ==> created == 0
  {
    routers, created := [], 0;
    for r := 0 to RoutersPerLocation
      invariant |routers| == r && RoutersAre(routers, db.routers, v)
      invariant Added(old(db.routers), db.routers, created) && OnlySerials(old(db.routers), db.routers, v + 1)
      invariant VenueRouters(old(db.routers), v) ==> created == 0
    {
      var serial := SerialOf(v, r);
      if serial in db.routers {
        routers := routers + [db.routers[serial]];
      } else {
        db.routers := db.routers[serial := db.nextId];
        routers := routers + [db.nextId];
        db.nextId := db.nextId + 1;
        created := created + 1;
      }
    }
  }

  lemma RoutersGrow(routers: seq<seq<int>>, some: seq<int>, before: map<Serial, int>, after: map<Serial, int>, n: nat)
    requires AllRoutersAre(routers, before) && Added(before, after, n)
    requires |some| == RoutersPerLocation && RoutersAre(some, after, |routers|)
    ensures AllRoutersAre(routers + [some], after)
  {
    forall v: nat | v < |routers|
      ensures RoutersAre(routers[v], after, v)
    {
      assert RoutersAre(routers[v], before, v);
    }
  }

  lemma SerialsGrow(a: map<Serial, int>, b: map<Serial, int>, c: map<Serial, int>, v: nat, m: nat, n: nat)
    requires Added(a, b, m) && Added(b, c, n) && OnlySerials(a, b, v) && OnlySerials(b, c, v + 1)
    ensures Added(a, c, m + n) && OnlySerials(a, c, v + 1)
    ensures VenueRouters(a, v) ==> VenueRouters(b, v)
  {
  }

  /** Two routers per location; exactly the missing serials are created. */
  method EnsureRouters(db: Repositories, locations: seq<int>) returns (routers: seq<seq<int>>, created: nat)
    requires |locations| == |Specs|
    modifies db`routers, db`nextId
    ensures |routers| == |Specs| && AllRoutersAre(routers, db.routers)
    ensures Added(old(db.routers), db.routers, created) && OnlySerials(old(db.routers), db.routers, |Specs|)
    ensures AllRouters(old(db.routers)) ==> created == 0
  {
    routers, created := [], 0;
    for v := 0 to |locations|
      invariant |routers| == v && AllRoutersAre(routers, db.routers)
      invariant Added(old(db.routers), db.routers, created) && OnlySerials(old(db.routers), db.routers, v)
      invariant AllRouters(old(db.routers)) ==> created == 0
    {
      ghost var before := db.routers;
      var some, n := EnsureVenueRouters(db, v);
      RoutersGrow(routers, some, before, db.routers, n);
      SerialsGrow(old(db.routers), before, db.routers, v, created, n);
      routers := routers + [some];
      created := created + n;
    }
  }

  /** The pool of guests, in order, each with a device. */
  ghost predicate GuestsAre(guests: seq<int>, table: map<(int, nat), int>, devices: map<nat, int>, org: int) {
    forall i: nat :: i < |guests| ==> (org, i) in table && guests[i] == table[(org, i)] && i in devices
  }

  /** Nothing but this organization's pool, and one device for each, has been added. */
  ghost predicate OnlyPool(g: map<(int, nat), int>, g': map<(int, nat), int>, d: map<nat, int>, d': map<nat, int>,
                           org: int, n: nat) {
    && (forall key :: key in g' && key !in g ==> key.0 == org && key.1 < n)
    && forall key :: key in d' && key !in d ==> key < n
  }

  method EnsureGuest(db: Repositories, org: int, i: nat) returns (guest: int, newGuest: nat, newDevice: nat)
    modifies db`guests, db`devices, db`nextId
    ensures Added(old(db.guests), db.guests, newGuest) && Added(old(db.devices), db.devices, newDevice)
    ensures OnlyPool(old(db.guests), db.guests, old(db.devices), db.devices, org, i + 1)
    ensures (org, i) in db.guests && guest == db.guests[(org, i)] && i in db.devices
  {
    newGuest, newDevice := 0, 0;
    if (org, i) !in db.guests {
      db.guests := db.guests[(org, i) := db.nextId];
      db.nextId := db.nextId + 1;
      newGuest := 1;
    }
    if i !in db.devices {
      db.devices := db.devices[i := db.nextId];
      db.nextId := db.nextId + 1;
      newDevice := 1;
    }
    guest := db.guests[(org, i)];
  }

  /** The two tables the pool lives in. */
  datatype Pool = Pool(guests: map<(int, nat), int>, devices: map<nat, int>)

  ghost function PoolOf(db: Repositories): Pool
    reads db
  {
    Pool(db.guests, db.devices)
  }

  /** What has become of the pool after `n` guests. */
  ghost predicate PoolGrown(a: Pool, b: Pool, org: int, guests: seq<int>, m: nat, n: nat) {
    && Added(a.guests, b.guests, m) && Added(a.devices, b.devices, n)
    && OnlyPool(a.guests, b.guests, a.devices, b.devices, org, |guests|) && GuestsAre(guests, b.guests, b.devices, org)
  }

  lemma PoolGrows(a: Pool, b: Pool, c: Pool, org: int, guests: seq<int>, guest: int, m: nat, n: nat, g: nat, d: nat)
    requires PoolGrown(a, b, org, guests, m, n)
    requires Added(b.guests, c.guests, g) && Added(b.devices, c.devices, d)
    requires OnlyPool(b.guests, c.guests, b.devices, c.devices, org, |guests| + 1)
    requires (org, |guests|) in c.guests && guest == c.guests[(org, |guests|)] && |guests| in c.devices
    ensures PoolGrown(a, c, org, guests + [guest], m + g, n + d)
  {
    AddedChain(a.guests, b.guests, c.guests, m, g);
    AddedChain(a.devices, b.devices, c.devices, n, d);
  }

  /** Forty-eight guests with a device each; exactly the missing ones are created. */
  method EnsureGuests(db: Repositories, org: int) returns (guests: seq<int>, guestsCreated: nat, devicesCreated: nat)
    modifies db`guests, db`devices, db`nextId
    ensures |guests| == GuestPoolSize
            && PoolGrown(old(PoolOf(db)), PoolOf(db), org, guests, guestsCreated, devicesCreated)
  {
    guests, guestsCreated, devicesCreated := [], 0, 0;
    for i := 0 to GuestPoolSize
      invariant |guests| == i && PoolGrown(old(PoolOf(db)), PoolOf(db), org, guests, guestsCreated, devicesCreated)
    {
      ghost var before := PoolOf(db);
      var guest, newGuest, newDevice := EnsureGuest(db, org, i);
      PoolGrows(old(PoolOf(db)), before, PoolOf(db), org, guests, guest, guestsCreated, devicesCreated, newGuest,
          newDevice);
      guests := guests + [guest];
      guestsCreated := guestsCreated + newGuest;
      devicesCreated := devicesCreated + newDevice;
    }
  }

  ghost predicate HasSessions(sessions: seq<GuestSession>, org: int) {
    exists i :: 0 <= i < |sessions| && sessions[i].organization == org
  }

  method OrgHasSessions(db: Repositories, org: int) returns (found: bool)
    ensures found <==> HasSessions(db.sessions, org)
  {
    for i := 0 to |db.sessions|
      invariant forall k :: 0 <= k < i ==> db.sessions[k].organization != org
    {
      if db.sessions[i].organization == org { return true; }
    }
    return false;
  }

  // ----- the whole run -----

  /** Organization, user, role, membership and template are in place. */
  ghost predicate AccountReady(rows: Entities) {
    && WyfyDemo in rows.organizations && DemoUser in rows.users && TemplateListed(rows.templates)
    && var org, user := rows.organizations[WyfyDemo], rows.users[DemoUser];
    && Appointed(rows.roles, rows.assignments, user, org)
    && (org, user) in rows.memberships && rows.memberships[(org, user)] == ActiveMember
  }

  /** What a finished run leaves: every entity in place and the traffic gate closed. */
  ghost predicate Seeded(rows: Rows) {
    Prepared(rows.entities) && HasSessions(rows.activity.sessions, rows.entities.organizations[WyfyDemo])
  }

  method EnsureAccount(db: Repositories) returns (org: int)
    modifies db`organizations, db`users, db`assignments, db`memberships, db`templates, db`nextId
    ensures AccountReady(EntitiesOf(db)) && org == db.organizations[WyfyDemo] && db.nextId >= old(db.nextId)
    ensures old(AccountReady(EntitiesOf(db))) ==> EntitiesOf(db) == old(EntitiesOf(db))
  {
    var orgCreated, user, userCreated;
    org, orgCreated := EnsureOrganization(db);
    user, userCreated := EnsureUser(db);
    var granted := EnsureRole(db, user, org);
    var joined := EnsureMembership(db, user, org);
    var templated := EnsureTemplate(db);
  }

  /** Locations matching the specs one to one, each with its routers. */
  method EnsureVenues(db: Repositories, result: SeedResult, org: int) returns (vs: Venues)
    modifies db`locations, db`routers, db`nextId, result`locationsCreated, result`routersCreated
    ensures Matched(vs) && vs.organization == org && vs.guests == []
    ensures LocationsAre(vs.locations, db.locations, org) && AllRoutersAre(vs.routers, db.routers)
    ensures Added(old(db.locations), db.locations, result.locationsCreated)
            && OnlySpecs(old(db.locations), db.locations, org)
    ensures Added(old(db.routers), db.routers, result.routersCreated)
            && OnlySerials(old(db.routers), db.routers, |Specs|)
    ensures AllLocations(db.locations, org) && AllRouters(db.routers)
    ensures AllLocations(old(db.locations), org) ==> result.locationsCreated == 0
    ensures AllRouters(old(db.routers)) ==> result.routersCreated == 0
    ensures old(OwnIds(db.locations, db.nextId)) ==> DistinctPlaces(vs)
  {
    var locations, locationsCreated := EnsureLocations(db, org);
    result.locationsCreated := locationsCreated;
    var routers, routersCreated := EnsureRouters(db, locations);
    result.routersCreated := routersCreated;
    vs := Venues(org, locations, routers, []);
    RoutersAll(routers, db.routers);
  }

  lemma RoutersAll(routers: seq<seq<int>>, table: map<Serial, int>)
    requires |routers| == |Specs| && AllRoutersAre(routers, table)
    ensures AllRouters(table)
  {
    forall v: nat | v < |Specs|
      ensures VenueRouters(table, v)
    {
      assert RoutersAre(routers[v], table, v);
    }
  }

  /** Every venue has a router. */
  predicate Equipped(vs: Venues)
    requires Matched(vs)
  {
    forall v :: 0 <= v < |Specs| ==> vs.routers[v] != []
  }

  /** The rows a month of traffic adds. */
  ghost predicate MonthAdded(before: Activity, after: Activity, now: int, vs: Venues, days: seq<seq<Batch>>,
                             ls: seq<Login>)
  {
    && Matched(vs) && |days| == TrafficDays + 1 && MonthOk(days, now, vs)
    && after.sessions == before.sessions + WholeMonth(days) && after.logins == before.logins + ls
        && Balanced(WholeMonth(days), ls)
    && after.snapshots == before.snapshots + HealthOf(Flat(vs.routers), now)
    && (DistinctPlaces(vs) && Equipped(vs) ==> MonthServed(after.sessions[|before.sessions|..], now, vs))
  }

  lemma LaterPart<T>(a: seq<T>, b: seq<T>)
    ensures (a + b)[|a|..] == b
  {
  }

  method GenerateTraffic(db: Repositories, result: SeedResult, now: int, vs: Venues)
    returns (ghost days: seq<seq<Batch>>, ghost ls: seq<Login>)
    requires Matched(vs) && vs.guests != []
    modifies db`sessions, db`logins, db`snapshots
    modifies result`sessionsCreated, result`activeSessions, result`loginsCreated, result`snapshotsCreated
    ensures MonthAdded(old(ActivityOf(db)), ActivityOf(db), now, vs, days, ls)
    ensures result.sessionsCreated == old(result.sessionsCreated) + |WholeMonth(days)|
    ensures result.activeSessions == old(result.activeSessions) + Actives(WholeMonth(days))
    ensures result.loginsCreated == old(result.loginsCreated) + |ls|
    ensures result.snapshotsCreated == old(result.snapshotsCreated) + 9 * |Flat(vs.routers)|
  {
    days, ls := MonthTraffic(db, result, now, vs);
    AllHealth(db, result, now, vs.routers);
    LaterPart(old(db.sessions), WholeMonth(days));
    if DistinctPlaces(vs) && Equipped(vs) {
      EveryDayIsServed(days, now, vs);
    }
  }

  lemma {:induction false} FlatTwos(routers: seq<seq<int>>)
    requires forall v :: 0 <= v < |routers| ==> |routers[v]| == RoutersPerLocation
    ensures |Flat(routers)| == RoutersPerLocation * |routers|
    decreases routers
  {
    if routers != [] {
      FlatTwos(routers[..|routers| - 1]);
    }
  }

  /** Every session of the month belongs to the run's organization. */
  lemma FirstSessionIsOwn(days: seq<seq<Batch>>, now: int, vs: Venues)
    requires Matched(vs) && days != [] && MonthOk(days, now, vs) && vs.routers[0] != []
    ensures WholeMonth(days) != [] && WholeMonth(days)[0].organization == vs.organization
    decreases days
  {
    if |days| == 1 {
      assert days[..0] == [];
      assert DayOk(days[0], now, TrafficDays, vs);
      FirstOfDay(days[0], now, TrafficDays, vs);
    } else {
      FirstSessionIsOwn(days[..|days| - 1], now, vs);
    }
  }

  lemma {:induction false} FirstOfDay(bs: seq<Batch>, now: int, offset: nat, vs: Venues)
    requires Matched(vs) && bs != [] && DayOk(bs, now, offset, vs) && vs.routers[0] != []
    ensures AllSessions(bs) != [] && AllSessions(bs)[0].organization == vs.organization
    decreases bs
  {
    if |bs| == 1 {
      assert bs[..0] == [];
      assert BatchOk(bs[0], now, offset, 0, vs);
    } else {
      DayBut(bs, now, offset, vs);
      FirstOfDay(bs[..|bs| - 1], now, offset, vs);
    }
  }

  datatype Counts = Counts(sessions: nat, active: nat, logins: nat, snapshots: nat)

  ghost function CountsOf(result: SeedResult): Counts
    reads result
  {
    Counts(result.sessionsCreated, result.activeSessions, result.loginsCreated, result.snapshotsCreated)
  }

  /** What a run that generated traffic added, and that its counters say so. */
  ghost predicate TrafficAdded(before: Activity, after: Activity, counts: Counts, now: int, vs: Venues,
                               days: seq<seq<Batch>>, ls: seq<Login>)
  {
    && MonthAdded(before, after, now, vs, days, ls) && Equipped(vs)
    && counts == Counts(|WholeMonth(days)|, Actives(WholeMonth(days)), |ls|, 9 * |Flat(vs.routers)|)
    && 279 <= counts.sessions <= 1023 && counts.snapshots == 54
  }

  /** With two routers at each of three venues: 279 to 1023 sessions, six routers, and the
      organization has sessions from then on. */
  lemma MonthFacts(days: seq<seq<Batch>>, now: int, vs: Venues)
    requires Matched(vs) && |days| == TrafficDays + 1 && MonthOk(days, now, vs)
    requires forall v :: 0 <= v < |Specs| ==> |vs.routers[v]| == RoutersPerLocation
    ensures 279 <= |WholeMonth(days)| <= 1023 && |Flat(vs.routers)| == 6
    ensures WholeMonth(days)[0].organization == vs.organization
  {
    MonthVolume(days, now, vs);
    FlatTwos(vs.routers);
    FirstSessionIsOwn(days, now, vs);
  }

  lemma {:induction false} TrafficSummary(before: Activity, after: Activity, counts: Counts, now: int, vs: Venues,
                       days: seq<seq<Batch>>, ls: seq<Login>)
    requires MonthAdded(before, after, now, vs, days, ls)
    requires forall v :: 0 <= v < |Specs| ==> |vs.routers[v]| == RoutersPerLocation
    requires counts == Counts(|WholeMonth(days)|, Actives(WholeMonth(days)), |ls|, 9 * |Flat(vs.routers)|)
    ensures TrafficAdded(before, after, counts, now, vs, days, ls) && HasSessions(after.sessions, vs.organization)
  {
    MonthFacts(days, now, vs);
    assert after.sessions[|before.sessions|] == WholeMonth(days)[0];
  }

  /** Guests and traffic, behind the gate. */
  method SeedTraffic(db: Repositories, result: SeedResult, now: int, vs: Venues)
    returns (ghost guests: seq<int>, ghost days: seq<seq<Batch>>, ghost ls: seq<Login>)
    requires Matched(vs) && forall v :: 0 <= v < |Specs| ==> |vs.routers[v]| == RoutersPerLocation
    requires CountsOf(result) == Counts(0, 0, 0, 0)
    modifies db`guests, db`devices, db`nextId, db`sessions, db`logins, db`snapshots
    modifies result`guestsCreated, result`devicesCreated
    modifies result`sessionsCreated, result`activeSessions, result`loginsCreated, result`snapshotsCreated
    ensures |guests| == GuestPoolSize
    ensures PoolGrown(old(PoolOf(db)), PoolOf(db), vs.organization, guests, result.guestsCreated, result.devicesCreated)
    ensures TrafficAdded(old(ActivityOf(db)), ActivityOf(db), CountsOf(result), now, vs.(guests := guests), days, ls)
    ensures HasSessions(db.sessions, vs.organization) && EntitiesOf(db) == old(EntitiesOf(db))
  {
    var pool := EnsurePool(db, result, vs.organization);
    guests := pool;
    days, ls := MonthOfTraffic(db, result, now, vs.(guests := pool));
  }

  method EnsurePool(db: Repositories, result: SeedResult, org: int) returns (guests: seq<int>)
    modifies db`guests, db`devices, db`nextId, result`guestsCreated, result`devicesCreated
    ensures |guests| == GuestPoolSize && EntitiesOf(db) == old(EntitiesOf(db)) && ActivityOf(db) == old(ActivityOf(db))
    ensures PoolGrown(old(PoolOf(db)), PoolOf(db), org, guests, result.guestsCreated, result.devicesCreated)
    ensures CountsOf(result) == old(CountsOf(result))
  {
    var guestsCreated, devicesCreated;
    guests, guestsCreated, devicesCreated := EnsureGuests(db, org);
    result.guestsCreated := guestsCreated;
    result.devicesCreated := devicesCreated;
  }

  method MonthOfTraffic(db: Repositories, result: SeedResult, now: int, vs: Venues)
    returns (ghost days: seq<seq<Batch>>, ghost ls: seq<Login>)
    requires Matched(vs) && vs.guests != [] && forall v :: 0 <= v < |Specs| ==> |vs.routers[v]| == RoutersPerLocation
    requires CountsOf(result) == Counts(0, 0, 0, 0)
    modifies db`sessions, db`logins, db`snapshots
    modifies result`sessionsCreated, result`activeSessions, result`loginsCreated, result`snapshotsCreated
    ensures TrafficAdded(old(ActivityOf(db)), ActivityOf(db), CountsOf(result), now, vs, days, ls)
    ensures HasSessions(db.sessions, vs.organization)
    ensures EntitiesOf(db) == old(EntitiesOf(db)) && PoolOf(db) == old(PoolOf(db))
  {
    days, ls := GenerateTraffic(db, result, now, vs);
    TrafficSummary(old(ActivityOf(db)), ActivityOf(db), CountsOf(result), now, vs, days, ls);
  }

  /** Everything is in place except perhaps the traffic. */
  ghost predicate Prepared(rows: Entities) {
    AccountReady(rows) && AllLocations(rows.locations, rows.organizations[WyfyDemo]) && AllRouters(rows.routers)
  }

  /** The venues are the database's own: its organization, the location of every spec in order,
      and each location's two routers by serial. */
  ghost predicate VenuesAre(vs: Venues, rows: Entities) {
    && Matched(vs) && WyfyDemo in rows.organizations && vs.organization == rows.organizations[WyfyDemo]
    && LocationsAre(vs.locations, rows.locations, vs.organization) && AllRoutersAre(vs.routers, rows.routers)
  }

  method EnsureEntities(db: Repositories, result: SeedResult) returns (vs: Venues)
    modifies db`organizations, db`users, db`assignments, db`memberships, db`templates, db`locations, db`routers,
        db`nextId
    modifies result`locationsCreated, result`routersCreated
    ensures Prepared(EntitiesOf(db)) && VenuesAre(vs, EntitiesOf(db))
    ensures old(Prepared(EntitiesOf(db))) ==>
              EntitiesOf(db) == old(EntitiesOf(db)) && result.locationsCreated == 0 && result.routersCreated == 0
    ensures old(OwnIds(db.locations, db.nextId)) ==> DistinctPlaces(vs)
  {
    var org := EnsureAccount(db);
    vs := EnsureVenues(db, result, org);
    if old(Prepared(EntitiesOf(db))) {
      NoneAdded(old(db.locations), db.locations);
      NoneAdded(old(db.routers), db.routers);
    }
  }

  /** Traffic, unless the organization already has sessions. */
  method GatedTraffic(db: Repositories, result: SeedResult, now: int, vs: Venues)
    returns (ghost guests: seq<int>, ghost days: seq<seq<Batch>>, ghost ls: seq<Login>)
    requires Matched(vs) && forall v :: 0 <= v < |Specs| ==> |vs.routers[v]| == RoutersPerLocation
    requires CountsOf(result) == Counts(0, 0, 0, 0)
    modifies db`guests, db`devices, db`nextId, db`sessions, db`logins, db`snapshots
    modifies result`guestsCreated, result`devicesCreated, result`trafficSkipped
    modifies result`sessionsCreated, result`activeSessions, result`loginsCreated, result`snapshotsCreated
    ensures EntitiesOf(db) == old(EntitiesOf(db)) && HasSessions(db.sessions, vs.organization)
    ensures result.trafficSkipped <==> HasSessions(old(db.sessions), vs.organization)
    ensures result.trafficSkipped ==>
              RowsOf(db) == old(RowsOf(db)) && CountsOf(result) == Counts(0, 0, 0, 0)
              && result.guestsCreated == old(result.guestsCreated)
                  && result.devicesCreated == old(result.devicesCreated)
    ensures !result.trafficSkipped ==>
              && GuestedTraffic(old(RowsOf(db)), RowsOf(db), CountsOf(result), now, vs.(guests := guests), days, ls)
  {
    guests, days, ls := [], [], [];
    var closed := OrgHasSessions(db, vs.organization);
    result.trafficSkipped := closed;
    if !closed {
      guests, days, ls := SeedTraffic(db, result, now, vs);
    }
  }

  /** Traffic of these venues by the database's own forty-eight guests, each with a device. */
  ghost predicate GuestedTraffic(before: Rows, after: Rows, counts: Counts, now: int, vs: Venues,
                                 days: seq<seq<Batch>>, ls: seq<Login>)
  {
    && |vs.guests| == GuestPoolSize && GuestsAre(vs.guests, after.guests, after.devices, vs.organization)
    && TrafficAdded(before.activity, after.activity, counts, now, vs, days, ls)
  }

  /** What one run does, by what it found. */
  ghost predicate RunDoes(before: Rows, after: Rows, counts: Counts, skipped: bool, now: int, vs: Venues,
                          days: seq<seq<Batch>>, ls: seq<Login>)
  {
    && Seeded(after) && VenuesAre(vs, after.entities)
    && (Seeded(before) ==> after == before && skipped && counts == Counts(0, 0, 0, 0))
    && (skipped <==> HasSessions(before.activity.sessions, vs.organization))
    && (!skipped ==> GuestedTraffic(before, after, counts, now, vs, days, ls))
  }

  lemma RunSummary(before: Rows, mid: Rows, after: Rows, counts: Counts, skipped: bool, now: int, vs: Venues,
                   guests: seq<int>,
                   days: seq<seq<Batch>>, ls: seq<Login>)
    requires Prepared(mid.entities) && (Prepared(before.entities) ==> mid == before) && mid.activity == before.activity
    requires VenuesAre(vs, mid.entities) && after.entities == mid.entities
    requires HasSessions(after.activity.sessions, vs.organization)
    requires skipped <==> HasSessions(mid.activity.sessions, vs.organization)
    requires skipped ==> after == mid && counts == Counts(0, 0, 0, 0)
    requires !skipped ==> GuestedTraffic(mid, after, counts, now, vs.(guests := guests), days, ls)
    ensures RunDoes(before, after, counts, skipped, now, vs.(guests := guests), days, ls)
  {
  }

  method SeedInto(db: Repositories, result: SeedResult, now: int)
    returns (ghost vs: Venues, ghost days: seq<seq<Batch>>, ghost ls: seq<Login>)
    requires CountsOf(result) == Counts(0, 0, 0, 0) && result.guestsCreated == 0 && result.devicesCreated == 0
    modifies db, result
    ensures RunDoes(old(RowsOf(db)), RowsOf(db), CountsOf(result), result.trafficSkipped, now, vs, days, ls)
    ensures old(Seeded(RowsOf(db))) ==>
              result.locationsCreated == 0 && result.routersCreated == 0 && result.guestsCreated == 0
                  && result.devicesCreated == 0
    ensures old(OwnIds(db.locations, db.nextId)) ==> DistinctPlaces(vs)
  {
    var venues := EnsureEntities(db, result);
    ghost var mid := RowsOf(db);
    ghost var guests;
    guests, days, ls := GatedTraffic(db, result, now, venues);
    vs := venues.(guests := guests);
    RunSummary(old(RowsOf(db)), mid, RowsOf(db), CountsOf(result), result.trafficSkipped, now, venues, guests, days,
        ls);
  }

  /** Every run ends seeded, on venues and guests that are the database's own. */
  method RunSeedDemo(db: Repositories, now: int)
    returns (result: SeedResult, ghost vs: Venues, ghost days: seq<seq<Batch>>, ghost ls: seq<Login>)
    modifies db
    ensures fresh(result)
    ensures RunDoes(old(RowsOf(db)), RowsOf(db), CountsOf(result), result.trafficSkipped, now, vs, days, ls)
    ensures old(Seeded(RowsOf(db))) ==>
              result.locationsCreated == 0 && result.routersCreated == 0 && result.guestsCreated == 0
                  && result.devicesCreated == 0
    ensures old(OwnIds(db.locations, db.nextId)) && !result.trafficSkipped ==>
              MonthServed(db.sessions[|old(db.sessions)|..], now, vs)
  {
    result := new SeedResult();
    vs, days, ls := SeedInto(db, result, now);
  }

  /** Running twice: the second run adds nothing at all. */
  method SeedTwice(db: Repositories, now: int, later: int)
    returns (first: SeedResult, second: SeedResult, ghost between: Rows)
    modifies db
    ensures Seeded(between) && RowsOf(db) == between
    ensures second.trafficSkipped && CountsOf(second) == Counts(0, 0, 0, 0)
    ensures second.locationsCreated == 0 && second.routersCreated == 0 && second.guestsCreated == 0
            && second.devicesCreated == 0
  {
    ghost var vs, days, ls;
    first, vs, days, ls := RunSeedDemo(db, now);
    between := RowsOf(db);
    second, vs, days, ls := RunSeedDemo(db, later);
  }
}
