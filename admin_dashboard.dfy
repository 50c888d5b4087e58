/** The live-sessions dashboard of src/pages/admin/AdminDashboard.tsx: the
    search over user names, the three statistics and ending a session. */
module AdminDashboard {
  import opened Wrappers
  import opened Records
  import opened Seqs
  import opened Text
  import opened Tables
  import opened Store
  import opened Arith

  function NameMatches(term: string): Session -> bool {
    (s: Session) => Contains(ToLower(s.userName), ToLower(term))
  }

  /** The search: the sessions whose lower-cased user name contains the
      lower-cased term, in order; an empty term keeps them all. */
  function FilteredSessions(sessions: seq<Session>, term: string): (r: seq<Session>)
    ensures forall s :: s in r <==> s in sessions && Contains(ToLower(s.userName), ToLower(term))
    ensures |r| <= |sessions|
    ensures term == [] ==> r == sessions
  {
    if term == [] then
      forall s: Session ensures NameMatches(term)(s) {
        ContainsEmpty(ToLower(s.userName));
      }
      Filter(sessions, NameMatches(term))
    else
      Filter(sessions, NameMatches(term))
  }

  /** The search keeps the listing's order: the matches among later
      sessions come after those among earlier ones. */
  lemma FilteredSessionsAppend(a: seq<Session>, b: seq<Session>, term: string)
    ensures FilteredSessions(a + b, term) == FilteredSessions(a, term) + FilteredSessions(b, term)
  {
    FilterAppend(a, b, NameMatches(term));
  }

  /** Searching again within the results finds the same sessions. */
  lemma FilteredSessionsIdempotent(sessions: seq<Session>, term: string)
    ensures FilteredSessions(FilteredSessions(sessions, term), term) == FilteredSessions(sessions, term)
  {
    FilterIdempotent(sessions, NameMatches(term));
  }

  /** `new Set(sessions.map(s => s.pcNumber))`. */
  function PCNumbers(sessions: seq<Session>): (r: set<int>)
    ensures forall n :: n in r <==> exists i :: 0 <= i < |sessions| && sessions[i].pcNumber == n
    ensures |r| <= |sessions|
    ensures sessions != [] ==> |r| >= 1
  {
    if sessions == [] then {}
    else
      var rest := PCNumbers(sessions[1..]);
      assert forall n :: n in rest <==> exists i :: 1 <= i < |sessions| && sessions[i].pcNumber == n by {
        forall n ensures n in rest <==> exists i :: 1 <= i < |sessions| && sessions[i].pcNumber == n {
          if n in rest {
            var j :| 0 <= j < |sessions[1..]| && sessions[1..][j].pcNumber == n;
            assert sessions[j + 1].pcNumber == n;
          }
          if exists i :: 1 <= i < |sessions| && sessions[i].pcNumber == n {
            var i :| 1 <= i < |sessions| && sessions[i].pcNumber == n;
            assert sessions[1..][i - 1].pcNumber == n;
          }
        }
      }
      assert |{sessions[0].pcNumber} + rest| <= 1 + |rest|;
      {sessions[0].pcNumber} + rest
  }

  /** `sessions.reduce((sum, s) => sum + s.elapsedTime, 0)`. */
  function ElapsedSum(sessions: seq<Session>): int {
    if sessions == [] then 0 else sessions[0].elapsedTime + ElapsedSum(sessions[1..])
  }

  /** The sum taken from the right equals the source's left-to-right
      `reduce`: adding one more session adds its elapsed time. */
  lemma {:induction false} ElapsedSumSnoc(sessions: seq<Session>, s: Session)
    ensures ElapsedSum(sessions + [s]) == ElapsedSum(sessions) + s.elapsedTime
  {
    if sessions != [] {
      assert (sessions + [s])[1..] == sessions[1..] + [s];
      ElapsedSumSnoc(sessions[1..], s);
    }
  }

  /** A sum of values that all lie between `lo` and `hi`. */
  lemma {:induction false} ElapsedSumBounds(sessions: seq<Session>, lo: int, hi: int)
    requires forall i :: 0 <= i < |sessions| ==> lo <= sessions[i].elapsedTime <= hi
    ensures |sessions| * lo <= ElapsedSum(sessions) <= |sessions| * hi
  {
    if sessions != [] {
      ElapsedSumBounds(sessions[1..], lo, hi);
    }
  }

  datatype Stats = Stats(total: nat, uniquePCs: nat, avgTime: int)

  /** `stats`: zeros for no sessions; otherwise the count, the number of
      distinct PC numbers (at least one and at most the count) and the mean
      elapsed time rounded to the nearest minute. */
  function SessionStats(sessions: seq<Session>): (st: Stats)
    ensures sessions == [] ==> st == Stats(0, 0, 0)
    ensures sessions != [] ==>
      && st.total == |sessions|
      && st.uniquePCs == |PCNumbers(sessions)|
      && 1 <= st.uniquePCs <= st.total
      && |sessions| * (2 * st.avgTime - 1) <= 2 * ElapsedSum(sessions) < |sessions| * (2 * st.avgTime + 1)
  {
    if sessions == [] then Stats(0, 0, 0)
    else Stats(|sessions|, |PCNumbers(sessions)|, RoundDiv(ElapsedSum(sessions), |sessions|))
  }

  /** The average lies between the shortest and the longest elapsed time. */
  lemma AverageWithin(sessions: seq<Session>, lo: int, hi: int)
    requires sessions != []
    requires forall i :: 0 <= i < |sessions| ==> lo <= sessions[i].elapsedTime <= hi
    ensures lo <= SessionStats(sessions).avgTime <= hi
  {
    ElapsedSumBounds(sessions, lo, hi);
    RoundDivWithin(ElapsedSum(sessions), |sessions|, lo, hi);
  }

  /** Sessions on pairwise different PCs count one PC each. */
  lemma {:induction false} DistinctPCsCountEach(sessions: seq<Session>)
    requires forall i, j :: 0 <= i < j < |sessions| ==> sessions[i].pcNumber != sessions[j].pcNumber
    ensures |PCNumbers(sessions)| == |sessions|
  {
    if sessions != [] {
      DistinctPCsCountEach(sessions[1..]);
      assert sessions[0].pcNumber !in PCNumbers(sessions[1..]);
    }
  }

  class DashboardPage {
    const store: LocalStore
    var sessions: seq<Session>
    var searchTerm: string

    ghost predicate Valid()
      reads this, store
    {
      store.Valid()
    }

    constructor (store: LocalStore)
      requires store.Valid()
      ensures this.store == store && Valid() && sessions == [] && searchTerm == ""
    {
      this.store := store;
      sessions := [];
      searchTerm := "";
    }

    /** `loadSessions`: `getActiveSessions()`, which seeds the store if needed. */
    method LoadSessions(clock: Clock, noise: nat -> int)
      requires Valid()
      modifies this, store
      ensures Valid()
      ensures store.Snapshot() == Seeded(old(store.Snapshot()), clock, noise)
      ensures sessions == SessionsView(store.sessions, store.users, clock.nowMs)
      ensures searchTerm == old(searchTerm)
    {
      sessions := store.GetActiveSessions(clock, noise);
    }

    /** `handleEndSession`: the session is dropped from the stored key (read
        without seeding), then the list is reloaded (which seeds if needed). */
    method HandleEndSession(clock: Clock, noise: nat -> int, sessionId: string)
      requires Valid()
      modifies this, store
      ensures Valid()
      ensures store.Snapshot() ==
        Seeded(old(store.Snapshot()).(sessions := WithoutSession(old(store.sessions), sessionId)), clock, noise)
      ensures sessions == SessionsView(store.sessions, store.users, clock.nowMs)
      ensures old(store.initialized) ==> forall s :: s in sessions ==> s.id != sessionId
    {
      store.EndSession(sessionId);
      LoadSessions(clock, noise);
    }
  }
}
