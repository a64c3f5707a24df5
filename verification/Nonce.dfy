/**
  The replay table for signed tokens: a timestamp window, and rows that are purged
  once their token could no longer pass the window. Requests overlap: each reads the
  clock when it is checked and reaches the table later, in any order.
*/
module Nonce {
  import opened Wrappers

  const WINDOW := 60

  // What ParseSuperToken and VerifySuperToken establish about a request, before and
  // after the window is looked at.
  datatype Request = Request(kid: string, nonce: string, timestamp: int, wellFormed: bool, signed: bool)

  datatype Key = Key(kid: string, nonce: string)

  type Rows = map<Key, int>

  // How the transaction ends. A commit whose acknowledgement is lost did happen.
  datatype Commit = Committed | Failed | Unacknowledged

  datatype Answer = Accepted | Unauthorized | OutOfWindow | Replayed | IssueFailed

  /** One access to the table, by a request that read the clock at `now`. */
  datatype Event = Event(request: Request, now: int, commit: Commit)

  // -------------------------------------------------------------- one request

  function KeyOf(r: Request): Key {
    Key(r.kid, r.nonce)
  }

  predicate InWindow(r: Request, now: int) {
    now - WINDOW <= r.timestamp <= now + WINDOW
  }

  function Purged(rows: Rows, now: int): Rows {
    map k | k in rows && rows[k] >= now :: rows[k]
  }

  function Registered(rows: Rows, r: Request, now: int): Rows {
    var kept := Purged(rows, now);
    if KeyOf(r) in kept then kept else kept[KeyOf(r) := r.timestamp + WINDOW]
  }

  /** The answer to a request that does not get as far as the table. */
  function Refusal(r: Request, now: int): Option<Answer> {
    if !r.wellFormed then Some(Unauthorized)
    else if !InWindow(r, now) then Some(OutOfWindow)
    else if !r.signed then Some(Unauthorized)
    else None
  }

  /** A well-formed, signed token whose timestamp is within a minute of the clock. */
  predicate Genuine(r: Request, now: int) {
    r.wellFormed && r.signed && -60 <= r.timestamp - now <= 60
  }

  predicate Reaches(e: Event) {
    Refusal(e.request, e.now).None?
  }

  /** The table is changed. */
  predicate Writes(e: Event) {
    Reaches(e) && !e.commit.Failed?
  }

  function RowsAfter(rows: Rows, e: Event): Rows {
    if Writes(e) then Registered(rows, e.request, e.now) else rows
  }

  function AnswerTo(rows: Rows, e: Event): Answer {
    if !Reaches(e) then Refusal(e.request, e.now).value
    else if !e.commit.Committed? then IssueFailed
    else if KeyOf(e.request) in Purged(rows, e.now) then Replayed
    else Accepted
  }

  /** The first part of ServeHTTP: the token's form, the window and the signature, with no look at the table. */
  method Check(request: Request, now: int) returns (refused: Option<Answer>)
    ensures refused == Refusal(request, now)
    ensures refused == Some(OutOfWindow) <==> request.wellFormed && !(-60 <= request.timestamp - now <= 60)
    ensures refused == Some(Unauthorized) <==> !request.wellFormed || (-60 <= request.timestamp - now <= 60 && !request.signed)
    ensures refused.None? <==> Genuine(request, now)
  {
    if !request.wellFormed {
      return Some(Unauthorized);
    }
    if request.timestamp < now - 60 || request.timestamp > now + 60 {
      return Some(OutOfWindow);
    }
    if !request.signed {
      return Some(Unauthorized);
    }
    return None;
  }

  class NonceStore {
    var rows: Rows

    constructor ()
      ensures rows == map[]
    {
      rows := map[];
    }

    /** Register: purge and insert in one transaction; true exactly when the row is new. */
    method Register(kid: string, nonce: string, tokenTimestamp: int, serverSeconds: int, commit: Commit) returns (r: Result<bool>)
      modifies this
      ensures var request := Request(kid, nonce, tokenTimestamp, true, true);
              && rows == (if commit.Failed? then old(rows) else Registered(old(rows), request, serverSeconds))
              && (r.Ok? <==> commit.Committed?)
              && (r.Ok? ==> (r.value <==> Key(kid, nonce) !in Purged(old(rows), serverSeconds)))
    {
      var key := Key(kid, nonce);
      var transaction := map k | k in rows && !(rows[k] < serverSeconds) :: rows[k];
      var inserted := key !in transaction;
      if inserted {
        transaction := transaction[key := tokenTimestamp + 60];
      }
      match commit {
        case Failed => r := Err("the transaction failed");
        case Unacknowledged =>
          rows := transaction;
          r := Err("the commit was not acknowledged");
        case Committed =>
          rows := transaction;
          r := Ok(inserted);
      }
    }

    /** The second part of ServeHTTP, up to the decision to accept, on the clock reading of the first. */
    method Finish(request: Request, now: int, commit: Commit) returns (answer: Answer)
      requires Refusal(request, now).None?
      modifies this
      ensures rows == RowsAfter(old(rows), Event(request, now, commit))
      ensures answer == AnswerTo(old(rows), Event(request, now, commit))
    {
      var inserted := Register(request.kid, request.nonce, request.timestamp, now, commit);
      if inserted.Err? {
        return IssueFailed;
      }
      answer := if inserted.value then Accepted else Replayed;
    }
  }

  // -------------------------------------------------------------- the table

  function After(events: seq<Event>): Rows {
    if events == [] then map[] else RowsAfter(After(events[..|events| - 1]), events[|events| - 1])
  }

  predicate AcceptedAt(events: seq<Event>, i: nat)
    requires i < |events|
  {
    AnswerTo(After(events[..i]), events[i]) == Accepted
  }

  /** A row was inserted: the request was accepted, or would have been had the commit been acknowledged. */
  predicate InsertedAt(events: seq<Event>, i: nat)
    requires i < |events|
  {
    Writes(events[i]) && KeyOf(events[i].request) !in Purged(After(events[..i]), events[i].now)
  }

  lemma AfterNext(events: seq<Event>, n: nat)
    requires n < |events|
    ensures After(events[..n + 1]) == RowsAfter(After(events[..n]), events[n])
  {
    assert events[..n + 1][..n] == events[..n];
  }

  /** A purge between `i` and `n` that the row inserted at `i` did not survive. */
  ghost predicate PurgedBetween(events: seq<Event>, i: nat, n: nat)
    requires i < n <= |events|
  {
    exists m :: i < m < n && Writes(events[m]) && events[m].now > events[i].request.timestamp + WINDOW
  }

  ghost predicate LastInsertion(events: seq<Event>, i: nat, n: nat)
    requires i < n <= |events|
  {
    && InsertedAt(events, i)
    && forall m :: i < m < n && KeyOf(events[m].request) == KeyOf(events[i].request) ==> !InsertedAt(events, m)
  }

  /** Whatever the readings, a row is in the table exactly until a committed request finds it expired. */
  lemma {:induction false} RowLivesUntilPurged(events: seq<Event>, i: nat, n: nat)
    requires i < n <= |events| && LastInsertion(events, i, n)
    ensures KeyOf(events[i].request) in After(events[..n]) <==> !PurgedBetween(events, i, n)
    ensures KeyOf(events[i].request) in After(events[..n]) ==>
      After(events[..n])[KeyOf(events[i].request)] == events[i].request.timestamp + WINDOW
  {
    AfterNext(events, n - 1);
    if n - 1 > i {
      RowLivesUntilPurged(events, i, n - 1);
      assert PurgedBetween(events, i, n) <==>
        PurgedBetween(events, i, n - 1) || (Writes(events[n - 1]) && events[n - 1].now > events[i].request.timestamp + WINDOW);
      assert KeyOf(events[n - 1].request) == KeyOf(events[i].request) ==> !InsertedAt(events, n - 1);
    }
  }

  /** A key that was never inserted is not in the table. */
  lemma {:induction false} NeverInserted(events: seq<Event>, n: nat, key: Key)
    requires n <= |events| && forall m :: 0 <= m < n && KeyOf(events[m].request) == key ==> !InsertedAt(events, m)
    ensures key !in After(events[..n])
  {
    if n > 0 {
      AfterNext(events, n - 1);
      NeverInserted(events, n - 1, key);
    }
  }

  /**
    The exact condition for a second acceptance, whatever the readings: since the last
    insertion of this (kid, nonce), some committed request came with a reading past its expiry.
  */
  lemma ReuseIsAcceptedExactlyWhenPurged(events: seq<Event>, i: nat, j: nat)
    requires i < j < |events| && LastInsertion(events, i, j) && KeyOf(events[j].request) == KeyOf(events[i].request)
    requires Reaches(events[j]) && events[j].commit.Committed?
    ensures AcceptedAt(events, j) <==>
            PurgedBetween(events, i, j) || events[j].now > events[i].request.timestamp + WINDOW
  {
    RowLivesUntilPurged(events, i, j);
  }

  /** A first use is always accepted. */
  lemma FirstUseIsAccepted(events: seq<Event>, j: nat)
    requires j < |events| && Reaches(events[j]) && events[j].commit.Committed?
    requires forall m :: 0 <= m < j && KeyOf(events[m].request) == KeyOf(events[j].request) ==> !InsertedAt(events, m)
    ensures AcceptedAt(events, j)
  {
    NeverInserted(events, j, KeyOf(events[j].request));
  }

  /** The latest insertion of a key before `j`, given one. */
  lemma {:induction false} LatestInsertion(events: seq<Event>, i: nat, j: nat) returns (k: nat)
    requires i < j <= |events| && InsertedAt(events, i)
    ensures i <= k < j && KeyOf(events[k].request) == KeyOf(events[i].request) && LastInsertion(events, k, j)
    decreases j - i
  {
    k := i;
    if m :| i < m < j && KeyOf(events[m].request) == KeyOf(events[i].request) && InsertedAt(events, m) {
      k := LatestInsertion(events, m, j);
    }
  }

  /** The row inserted at `i` was purged after `i` and no later than `j`. */
  ghost predicate PurgedBy(events: seq<Event>, i: nat, j: nat)
    requires i < j < |events|
  {
    exists m :: i < m <= j && Writes(events[m]) && events[m].now > events[i].request.timestamp + WINDOW
  }

  /** Between two insertions of one key the first row was purged. */
  lemma {:induction false} SecondInsertionNeedsAPurge(events: seq<Event>, i: nat, j: nat)
    requires i < j < |events| && InsertedAt(events, i) && InsertedAt(events, j)
    requires KeyOf(events[i].request) == KeyOf(events[j].request)
    ensures PurgedBy(events, i, j)
    decreases j - i
  {
    if k :| i < k < j && KeyOf(events[k].request) == KeyOf(events[i].request) && InsertedAt(events, k) {
      SecondInsertionNeedsAPurge(events, i, k);
    } else {
      RowLivesUntilPurged(events, i, j);
    }
  }

  /** Every row in the table is the one its key's last insertion wrote. */
  lemma EveryRowWasInserted(events: seq<Event>, key: Key) returns (m: nat)
    requires key in After(events)
    ensures m < |events| && KeyOf(events[m].request) == key && LastInsertion(events, m, |events|)
    ensures !PurgedBetween(events, m, |events|) && After(events)[key] == events[m].request.timestamp + WINDOW
  {
    var n := |events|;
    assert events[..n] == events;
    if forall k :: 0 <= k < n && KeyOf(events[k].request) == key ==> !InsertedAt(events, k) {
      NeverInserted(events, n, key);
    }
    var k: nat :| k < n && KeyOf(events[k].request) == key && InsertedAt(events, k);
    m := LatestInsertion(events, k, n);
    RowLivesUntilPurged(events, m, n);
  }

  // -------------------------------------------------------------- overlapping requests

  datatype Reading = Reading(request: Request, now: int)

  /** `table[i]` is the access of the request that took reading number `order[i]`. */
  datatype Server = Server(rows: Rows, readings: seq<Reading>, order: seq<nat>, table: seq<Event>)

  // A request reads the clock; later, with any number of others between, it reaches the table.
  datatype Step = ReadClock(request: Request, now: int) | Reach(reading: nat, commit: Commit)

  const Started := Server(map[], [], [], [])

  /** A step that is not possible leaves the server as it is. */
  function Next(s: Server, step: Step): Server {
    match step
    case ReadClock(request, now) =>
      if request.wellFormed then s.(readings := s.readings + [Reading(request, now)]) else s
    case Reach(k, commit) =>
      if k < |s.readings| && k !in s.order && Refusal(s.readings[k].request, s.readings[k].now).None? then
        var e := Event(s.readings[k].request, s.readings[k].now, commit);
        Server(RowsAfter(s.rows, e), s.readings, s.order + [k], s.table + [e])
      else s
  }

  function Run(steps: seq<Step>): Server {
    if steps == [] then Started else Next(Run(steps[..|steps| - 1]), steps[|steps| - 1])
  }

  ghost predicate AccessOf(s: Server, i: nat)
    requires i < |s.table| == |s.order|
  {
    && s.order[i] < |s.readings|
    && s.table[i].request == s.readings[s.order[i]].request
    && s.table[i].now == s.readings[s.order[i]].now
    && Reaches(s.table[i])
  }

  ghost predicate Valid(s: Server) {
    && s.rows == After(s.table)
    && |s.order| == |s.table|
    && (forall i :: 0 <= i < |s.table| ==> AccessOf(s, i))
    && (forall i, j :: 0 <= i < j < |s.order| ==> s.order[i] != s.order[j])
  }

  /** On every run the table is what its accesses made of it, and each request reached it at most once. */
  lemma {:induction false} RunIsValid(steps: seq<Step>)
    ensures Valid(Run(steps))
  {
    if steps != [] {
      var s, t := Run(steps[..|steps| - 1]), Run(steps);
      RunIsValid(steps[..|steps| - 1]);
      if t.table != s.table {
        assert t.table[..|t.table| - 1] == s.table;
      }
      forall i | 0 <= i < |t.table| ensures AccessOf(t, i) {
        assert i < |s.table| ==> AccessOf(s, i);
      }
    }
  }

  /** In every run only genuine requests reach the table: no other is accepted, and no other changes a row. */
  lemma OnlyGenuineRequestsReachTheTable(steps: seq<Step>, i: nat)
    requires i < |Run(steps).table|
    ensures var s := Run(steps);
            && |s.order| == |s.table| && s.order[i] < |s.readings|
            && Reading(s.table[i].request, s.table[i].now) == s.readings[s.order[i]]
            && Genuine(s.table[i].request, s.table[i].now)
  {
    RunIsValid(steps);
    assert AccessOf(Run(steps), i);
  }

  lemma OtherRequestsChangeNothing(s: Server, k: nat, commit: Commit)
    requires k < |s.readings| && !Genuine(s.readings[k].request, s.readings[k].now)
    ensures Next(s, Reach(k, commit)) == s
  {
  }

  /** A genuine request that reaches the table is answered by what its rows hold at its reading. */
  lemma GenuineRequestsAreAnswered(rows: Rows, r: Request, now: int, commit: Commit)
    requires Genuine(r, now)
    ensures var answer, key := AnswerTo(rows, Event(r, now, commit)), Key(r.kid, r.nonce);
            && (answer == IssueFailed <==> !commit.Committed?)
            && (answer == Replayed <==> commit.Committed? && key in rows && rows[key] >= now)
            && (answer == Accepted <==> commit.Committed? && !(key in rows && rows[key] >= now))
  {
  }

  ghost predicate ClockAdvances(s: Server) {
    forall a, b :: 0 <= a < b < |s.readings| ==> s.readings[a].now <= s.readings[b].now
  }

  /** The access at `m` came before the one at `j`, with a later clock reading. */
  ghost predicate Overtakes(s: Server, m: nat, j: nat)
    requires j < |s.order|
  {
    m < j && s.order[m] > s.order[j]
  }

  ghost predicate InOrder(s: Server) {
    forall m, j :: 0 <= m < j < |s.order| ==> s.order[m] < s.order[j]
  }

  ghost predicate OvertakerPurges(s: Server, i: nat, j: nat)
    requires i < j < |s.table| == |s.order|
  {
    exists m :: i < m < j && Overtakes(s, m, j) && Writes(s.table[m]) && s.table[m].now > s.table[i].request.timestamp + WINDOW
  }

  /** With a clock that does not go back, a later reading is a later time. */
  lemma LaterReadingsOvertake(s: Server, m: nat, j: nat)
    requires Valid(s) && ClockAdvances(s) && m < j < |s.table| && s.table[m].now > s.table[j].now
    ensures Overtakes(s, m, j)
  {
    assert AccessOf(s, m) && AccessOf(s, j);
  }

  /**
    The exact condition for a replay, with a clock that does not go back: between the
    token's insertion and its replay, a committed request that read the clock after the
    replay, at a time past the token's expiry, reached the table before it.
  */
  lemma AReplayIsAcceptedExactlyWhenOvertaken(steps: seq<Step>, i: nat, j: nat)
    requires var s := Run(steps);
             && ClockAdvances(s) && i < j < |s.table| && LastInsertion(s.table, i, j)
             && s.table[j].request == s.table[i].request && s.table[j].commit.Committed?
    ensures |Run(steps).order| == |Run(steps).table|
    ensures AcceptedAt(Run(steps).table, j) <==> OvertakerPurges(Run(steps), i, j)
  {
    var s := Run(steps);
    RunIsValid(steps);
    assert AccessOf(s, j);
    ReuseIsAcceptedExactlyWhenPurged(s.table, i, j);
    if PurgedBetween(s.table, i, j) {
      var m :| i < m < j && Writes(s.table[m]) && s.table[m].now > s.table[i].request.timestamp + WINDOW;
      LaterReadingsOvertake(s, m, j);
    }
  }

  /** A second acceptance that is not of a later token was overtaken, whatever lies between. */
  lemma ASecondAcceptanceWasOvertaken(steps: seq<Step>, i: nat, j: nat)
    requires var s := Run(steps);
             && ClockAdvances(s) && i < j < |s.table| && AcceptedAt(s.table, i) && AcceptedAt(s.table, j)
             && KeyOf(s.table[i].request) == KeyOf(s.table[j].request)
             && s.table[j].request.timestamp <= s.table[i].request.timestamp
    ensures |Run(steps).order| == |Run(steps).table|
    ensures OvertakerPurges(Run(steps), i, j)
  {
    var s := Run(steps);
    RunIsValid(steps);
    SecondInsertionNeedsAPurge(s.table, i, j);
    var m :| i < m <= j && Writes(s.table[m]) && s.table[m].now > s.table[i].request.timestamp + WINDOW;
    LaterReadingsOvertake(s, m, j);
  }

  /**
    On every run whose clock does not go back and whose requests reach the table in the
    order of their clock readings, a token is accepted at most once, although rows are purged.
  */
  lemma ATokenIsAcceptedAtMostOnce(steps: seq<Step>, i: nat, j: nat)
    requires var s := Run(steps);
             && ClockAdvances(s) && InOrder(s) && i < j < |s.table| && AcceptedAt(s.table, i) && AcceptedAt(s.table, j)
             && KeyOf(s.table[i].request) == KeyOf(s.table[j].request)
    ensures Run(steps).table[i].request.timestamp < Run(steps).table[j].request.timestamp
  {
    if Run(steps).table[j].request.timestamp <= Run(steps).table[i].request.timestamp {
      ASecondAcceptanceWasOvertaken(steps, i, j);
    }
  }

  ghost predicate RunsTo(steps: seq<Step>, readings: seq<Reading>, order: seq<nat>, table: seq<Event>) {
    var s := Run(steps);
    s.readings == readings && s.order == order && s.table == table
  }

  lemma ThenReads(steps: seq<Step>, r: Request, now: int, readings: seq<Reading>, order: seq<nat>, table: seq<Event>)
    requires RunsTo(steps, readings, order, table) && r.wellFormed
    ensures RunsTo(steps + [ReadClock(r, now)], readings + [Reading(r, now)], order, table)
  {
    assert (steps + [ReadClock(r, now)])[..|steps|] == steps;
  }

  lemma ThenReaches(steps: seq<Step>, k: nat, readings: seq<Reading>, order: seq<nat>, table: seq<Event>)
    requires RunsTo(steps, readings, order, table) && k < |readings| && k !in order && Refusal(readings[k].request, readings[k].now).None?
    ensures RunsTo(steps + [Reach(k, Committed)], readings, order + [k], table + [Event(readings[k].request, readings[k].now, Committed)])
  {
    assert (steps + [Reach(k, Committed)])[..|steps|] == steps;
  }

  lemma FirstRequest(r: Request, now: int)
    requires Refusal(r, now).None?
    ensures RunsTo([ReadClock(r, now), Reach(0, Committed)], [Reading(r, now)], [0], [Event(r, now, Committed)])
  {
    ThenReads([], r, now, [], [], []);
    ThenReaches([] + [ReadClock(r, now)], 0, [] + [Reading(r, now)], [], []);
    assert [] + [ReadClock(r, now)] + [Reach(0, Committed)] == [ReadClock(r, now), Reach(0, Committed)];
  }

  /** The table accepts `token` again once `other` has purged its row. */
  lemma AcceptedAgain(token: Request, other: Request, now: int, table: seq<Event>)
    requires KeyOf(token) != KeyOf(other) && token.wellFormed && token.signed && other.wellFormed && other.signed
    requires InWindow(token, now) && other.timestamp > token.timestamp + WINDOW
    requires table == [Event(token, token.timestamp, Committed), Event(other, other.timestamp, Committed), Event(token, now, Committed)]
    ensures AcceptedAt(table, 0) && AcceptedAt(table, 2)
  {
    FirstUseIsAccepted(table, 0);
    assert Writes(table[1]) && PurgedBetween(table, 0, 2);
    ReuseIsAcceptedExactlyWhenPurged(table, 0, 2);
  }

  /** A clock that does not go back is not enough: an overtaken replay is accepted. */
  lemma AnOvertakenReplayIsAccepted(kid: string, nonce: string, other: string)
    requires nonce != other
    ensures var token, later := Request(kid, nonce, 100, true, true), Request(kid, other, 161, true, true);
            var s := Run([ReadClock(token, 100), Reach(0, Committed), ReadClock(token, 160), ReadClock(later, 161),
                          Reach(2, Committed), Reach(1, Committed)]);
            && ClockAdvances(s) && |s.table| == 3 && s.table[0].request == s.table[2].request == token
            && AcceptedAt(s.table, 0) && AcceptedAt(s.table, 2)
  {
    var token, later := Request(kid, nonce, 100, true, true), Request(kid, other, 161, true, true);
    var first, second, third := Event(token, 100, Committed), Event(later, 161, Committed), Event(token, 160, Committed);
    var r0, r1, r2 := Reading(token, 100), Reading(token, 160), Reading(later, 161);
    var steps := [ReadClock(token, 100), Reach(0, Committed)];
    FirstRequest(token, 100);
    ThenReads(steps, token, 160, [r0], [0], [first]);
    ThenReads(steps + [ReadClock(token, 160)], later, 161, [r0] + [r1], [0], [first]);
    var waiting := steps + [ReadClock(token, 160)] + [ReadClock(later, 161)];
    ThenReaches(waiting, 2, [r0] + [r1] + [r2], [0], [first]);
    ThenReaches(waiting + [Reach(2, Committed)], 1, [r0] + [r1] + [r2], [0] + [2], [first] + [second]);
    assert waiting + [Reach(2, Committed)] + [Reach(1, Committed)] ==
      [ReadClock(token, 100), Reach(0, Committed), ReadClock(token, 160), ReadClock(later, 161), Reach(2, Committed), Reach(1, Committed)];
    AcceptedAgain(token, later, 160, [first] + [second] + [third]);
  }

  /** Nor is order: when the clock goes back, requests served one after the other accept a token twice. */
  lemma ABackwardsClockAcceptsAReplay(kid: string, nonce: string, other: string)
    requires nonce != other
    ensures var token, later := Request(kid, nonce, 100, true, true), Request(kid, other, 200, true, true);
            var s := Run([ReadClock(token, 100), Reach(0, Committed), ReadClock(later, 200), Reach(1, Committed),
                          ReadClock(token, 100), Reach(2, Committed)]);
            && InOrder(s) && |s.table| == 3 && s.table[0].request == s.table[2].request == token
            && AcceptedAt(s.table, 0) && AcceptedAt(s.table, 2)
  {
    var token, later := Request(kid, nonce, 100, true, true), Request(kid, other, 200, true, true);
    var first, second := Event(token, 100, Committed), Event(later, 200, Committed);
    var r0, r1 := Reading(token, 100), Reading(later, 200);
    var steps := [ReadClock(token, 100), Reach(0, Committed)];
    FirstRequest(token, 100);
    ThenReads(steps, later, 200, [r0], [0], [first]);
    ThenReaches(steps + [ReadClock(later, 200)], 1, [r0] + [r1], [0], [first]);
    var purged := steps + [ReadClock(later, 200)] + [Reach(1, Committed)];
    ThenReads(purged, token, 100, [r0] + [r1], [0] + [1], [first] + [second]);
    ThenReaches(purged + [ReadClock(token, 100)], 2, [r0] + [r1] + [r0], [0] + [1], [first] + [second]);
    assert purged + [ReadClock(token, 100)] + [Reach(2, Committed)] ==
      [ReadClock(token, 100), Reach(0, Committed), ReadClock(later, 200), Reach(1, Committed), ReadClock(token, 100), Reach(2, Committed)];
    AcceptedAgain(token, later, 100, [first] + [second] + [first]);
  }

  // -------------------------------------------------------------- the size of the table

  ghost predicate RowsWithin(rows: Rows, low: int, high: int) {
    forall k :: k in rows ==> low <= rows[k] <= high
  }

  /** After each Register nothing expired is left, and no row outlives the latest reading by more than two windows. */
  lemma TableStaysSmall(steps: seq<Step>)
    requires var s := Run(steps); ClockAdvances(s) && s.table != [] && Writes(s.table[|s.table| - 1])
    ensures var s := Run(steps);
            && s.readings != []
            && RowsWithin(s.rows, s.table[|s.table| - 1].now, s.readings[|s.readings| - 1].now + 2 * WINDOW)
  {
    var s := Run(steps);
    RunIsValid(steps);
    assert AccessOf(s, |s.table| - 1);
    forall k | k in s.rows ensures s.rows[k] <= s.readings[|s.readings| - 1].now + 2 * WINDOW {
      var m := EveryRowWasInserted(s.table, k);
      assert AccessOf(s, m);
    }
  }

  /** A row, still in the table, that an overtaking request inserted for a token more than a window ahead of the last reading. */
  ghost predicate LongRow(s: Server, m: nat)
    requires m < |s.table| == |s.order|
  {
    && LastInsertion(s.table, m, |s.table|) && !PurgedBetween(s.table, m, |s.table|)
    && Overtakes(s, m, |s.table| - 1)
    && s.table[m].request.timestamp > s.table[|s.table| - 1].now + WINDOW
  }

  lemma OvertakerLeavesALongRow(s: Server, m: nat)
    requires Valid(s) && m < |s.table| && LongRow(s, m)
    ensures KeyOf(s.table[m].request) in s.rows
    ensures s.rows[KeyOf(s.table[m].request)] > s.table[|s.table| - 1].now + 2 * WINDOW
  {
    RowLivesUntilPurged(s.table, m, |s.table|);
    assert s.table[..|s.table|] == s.table;
  }

  lemma LongRowWasLeft(s: Server, key: Key) returns (m: nat)
    requires Valid(s) && ClockAdvances(s) && s.table != [] && key in s.rows
    requires s.rows[key] > s.table[|s.table| - 1].now + 2 * WINDOW
    ensures m < |s.table| && LongRow(s, m)
  {
    m := EveryRowWasInserted(s.table, key);
    assert AccessOf(s, m);
    LaterReadingsOvertake(s, m, |s.table| - 1);
  }

  /** No row outlives two windows of the last request's own reading exactly when no overtaking request left one. */
  lemma RowsExpireWithinTwoWindowsExactlyWhen(steps: seq<Step>)
    requires var s := Run(steps); ClockAdvances(s) && s.table != [] && Writes(s.table[|s.table| - 1])
    ensures var s := Run(steps);
            && |s.order| == |s.table|
            && var now := s.table[|s.table| - 1].now;
               RowsWithin(s.rows, now, now + 2 * WINDOW) <==> forall m :: 0 <= m < |s.table| ==> !LongRow(s, m)
  {
    var s := Run(steps);
    var now := s.table[|s.table| - 1].now;
    RunIsValid(steps);
    TableStaysSmall(steps);
    forall m | 0 <= m < |s.table| && LongRow(s, m) ensures !RowsWithin(s.rows, now, now + 2 * WINDOW) {
      OvertakerLeavesALongRow(s, m);
    }
    forall key | key in s.rows && s.rows[key] > now + 2 * WINDOW ensures exists m :: 0 <= m < |s.table| && LongRow(s, m) {
      var m := LongRowWasLeft(s, key);
    }
  }

  /** In order, the table after each Register holds only rows that expire between its reading and 120 seconds later. */
  lemma InOrderRowsExpireWithinTwoWindows(steps: seq<Step>)
    requires var s := Run(steps); ClockAdvances(s) && InOrder(s) && s.table != [] && Writes(s.table[|s.table| - 1])
    ensures var s := Run(steps);
            var now := s.table[|s.table| - 1].now;
            RowsWithin(s.rows, now, now + 2 * WINDOW)
  {
    RowsExpireWithinTwoWindowsExactlyWhen(steps);
  }

  /** The run in which `ahead` overtakes `slow`. */
  lemma OvertakingRun(slow: Request, ahead: Request, t0: int, t1: int)
    requires Genuine(slow, t0) && Genuine(ahead, t1)
    ensures RunsTo([ReadClock(slow, t0), ReadClock(ahead, t1), Reach(1, Committed), Reach(0, Committed)],
                   [Reading(slow, t0), Reading(ahead, t1)], [1, 0], [Event(ahead, t1, Committed), Event(slow, t0, Committed)])
  {
    var r0, r1 := Reading(slow, t0), Reading(ahead, t1);
    var first, second := Event(ahead, t1, Committed), Event(slow, t0, Committed);
    var waiting := [] + [ReadClock(slow, t0)] + [ReadClock(ahead, t1)];
    ThenReads([], slow, t0, [], [], []);
    ThenReads([] + [ReadClock(slow, t0)], ahead, t1, [] + [r0], [], []);
    ThenReaches(waiting, 1, [] + [r0] + [r1], [], []);
    ThenReaches(waiting + [Reach(1, Committed)], 0, [] + [r0] + [r1], [] + [1], [] + [first]);
    assert waiting + [Reach(1, Committed)] + [Reach(0, Committed)] ==
      [ReadClock(slow, t0), ReadClock(ahead, t1), Reach(1, Committed), Reach(0, Committed)];
  }

  lemma RowAfterOvertaking(slow: Request, ahead: Request, t0: int, t1: int, table: seq<Event>)
    requires Genuine(slow, t0) && Genuine(ahead, t1) && t0 <= t1 && KeyOf(slow) != KeyOf(ahead)
    requires table == [Event(ahead, t1, Committed), Event(slow, t0, Committed)]
    ensures KeyOf(ahead) in After(table) && After(table)[KeyOf(ahead)] == ahead.timestamp + WINDOW
  {
    assert table[..2] == table;
    RowLivesUntilPurged(table, 0, 2);
  }

  /** An overtaken request leaves the table with a row that outlives its reading by more. */
  lemma AnOvertakenRequestKeepsALongRow(kid: string, nonce: string, other: string)
    requires nonce != other
    ensures var slow, ahead := Request(kid, nonce, 100, true, true), Request(kid, other, 210, true, true);
            var s := Run([ReadClock(slow, 100), ReadClock(ahead, 150), Reach(1, Committed), Reach(0, Committed)]);
            && ClockAdvances(s) && |s.table| == 2 && s.table[1].now == 100
            && KeyOf(ahead) in s.rows && s.rows[KeyOf(ahead)] == 270
  {
    var slow, ahead := Request(kid, nonce, 100, true, true), Request(kid, other, 210, true, true);
    var steps := [ReadClock(slow, 100), ReadClock(ahead, 150), Reach(1, Committed), Reach(0, Committed)];
    OvertakingRun(slow, ahead, 100, 150);
    RunIsValid(steps);
    RowAfterOvertaking(slow, ahead, 100, 150, Run(steps).table);
  }
}
