/** The client-local persisted store of src/utils/mockData.ts: one collection
    per key (`cybercafe_users`, `cybercafe_pcs`, `cybercafe_sessions`,
    `cybercafe_reservations`, `cybercafe_reports`, `cybercafe_orders`,
    `cybercafe_predictions`), the `cybercafe_initialized` sentinel and the
    `cybercafe_user` key that caches the logged-in account. A key that was
    never written reads as an empty collection (`|| '[]'`). */
module Store {
  import opened Wrappers
  import opened Records
  import opened Seqs
  import opened Tables
  import opened Seed

  /** The whole content of the store, as a value. */
  datatype Storage = Storage(
    users: seq<Account>, pcs: seq<PC>, sessions: seq<Session>,
    reservations: seq<Reservation>, reports: seq<Report>, orders: seq<Order>,
    predictions: seq<DemandPrediction>, initialized: bool,
    currentUser: Option<StoredUser>)

  /** The uniqueness facts every write of the store keeps. */
  predicate Consistent(st: Storage) {
    UniqueEmails(st.users) && UniquePCs(st.pcs)
  }

  /** `initializeMockData`: nothing when the sentinel is set; otherwise every
      collection gets its fixture and the sentinel is set. The cached current
      user is never touched. */
  function Seeded(st: Storage, clock: Clock, noise: nat -> int): (r: Storage)
    ensures r.initialized && r.currentUser == st.currentUser
    ensures st.initialized ==> r == st
    ensures !st.initialized ==>
      r.users == SeedUsers(clock.iso(clock.nowMs)) && r.pcs == SeedPCs() &&
      r.sessions == SeedSessions(clock.nowMs) && r.reservations == SeedReservations() &&
      r.reports == SeedReports(clock.iso(clock.nowMs - 3600000)) && r.orders == [] &&
      r.predictions == DemandTable(noise)
  {
    if st.initialized then st
    else Storage(
      SeedUsers(clock.iso(clock.nowMs)), SeedPCs(), SeedSessions(clock.nowMs),
      SeedReservations(), SeedReports(clock.iso(clock.nowMs - 3600000)), [],
      DemandTable(noise), true, st.currentUser)
  }

  /** Seeding a second time, with any clock and any random draws, leaves
      every collection as the first seeding left it. */
  lemma SeededIdempotent(st: Storage, c1: Clock, n1: nat -> int, c2: Clock, n2: nat -> int)
    ensures Seeded(Seeded(st, c1, n1), c2, n2) == Seeded(st, c1, n1)
  {
  }

  /** The fixture has unique emails and unique PC ids and numbers. */
  lemma SeededConsistent(st: Storage, clock: Clock, noise: nat -> int)
    requires Consistent(st)
    ensures Consistent(Seeded(st, clock, noise))
  {
    SeedPCsWellFormed();
  }

  class LocalStore {
    var users: seq<Account>
    var pcs: seq<PC>
    var sessions: seq<Session>
    var reservations: seq<Reservation>
    var reports: seq<Report>
    var orders: seq<Order>
    var predictions: seq<DemandPrediction>
    var initialized: bool
    var currentUser: Option<StoredUser>

    function Snapshot(): Storage
      reads this
    {
      Storage(users, pcs, sessions, reservations, reports, orders, predictions, initialized, currentUser)
    }

    ghost predicate Valid()
      reads this
    {
      Consistent(Snapshot())
    }

    /** An empty store: no key written yet. */
    constructor ()
      ensures Valid()
      ensures Snapshot() == Storage([], [], [], [], [], [], [], false, None)
    {
      users, pcs, sessions, reservations := [], [], [], [];
      reports, orders, predictions := [], [], [];
      initialized, currentUser := false, None;
    }

    method Initialize(clock: Clock, noise: nat -> int)
      requires Valid()
      modifies this
      ensures Valid()
      ensures Snapshot() == Seeded(old(Snapshot()), clock, noise)
    {
      if initialized {
        return;
      }
      users := SeedUsers(clock.iso(clock.nowMs));
      pcs := SeedPCs();
      sessions := SeedSessions(clock.nowMs);
      reservations := SeedReservations();
      reports := SeedReports(clock.iso(clock.nowMs - 3600000));
      orders := [];
      predictions := GenerateDemand(noise);
      initialized := true;
      SeedPCsWellFormed();
    }

    /** `getPCs`: seeds if needed, then reads the PCs. */
    method GetPCs(clock: Clock, noise: nat -> int) returns (r: seq<PC>)
      requires Valid()
      modifies this
      ensures Valid()
      ensures Snapshot() == Seeded(old(Snapshot()), clock, noise)
      ensures r == pcs
    {
      Initialize(clock, noise);
      r := pcs;
    }

    /** `updatePCStatus`: reads through `getPCs` (so it seeds if needed) and
        writes back the PCs with the status replaced. */
    method UpdatePCStatus(clock: Clock, noise: nat -> int, id: string, status: PCStatus)
      requires Valid()
      modifies this
      ensures Valid()
      ensures Snapshot() ==
        var seeded := Seeded(old(Snapshot()), clock, noise);
        seeded.(pcs := WithPCStatus(seeded.pcs, id, status))
    {
      var current := GetPCs(clock, noise);
      WithPCStatusKeepsUnique(current, id, status);
      pcs := WithPCStatus(current, id, status);
    }

    /** `getActiveSessions`: seeds if needed, then projects every session
        with its user's name and the minutes elapsed at `clock.nowMs`. */
    method GetActiveSessions(clock: Clock, noise: nat -> int) returns (r: seq<Session>)
      requires Valid()
      modifies this
      ensures Valid()
      ensures Snapshot() == Seeded(old(Snapshot()), clock, noise)
      ensures r == SessionsView(sessions, users, clock.nowMs)
    {
      Initialize(clock, noise);
      r := SessionsView(sessions, users, clock.nowMs);
    }

    /** `endSession`: drops the sessions with that id; reads the key directly,
        without seeding. */
    method EndSession(id: string)
      requires Valid()
      modifies this
      ensures Valid()
      ensures Snapshot() == old(Snapshot()).(sessions := WithoutSession(old(sessions), id))
    {
      sessions := WithoutSession(sessions, id);
    }

    /** `getMockUsers`: seeds if needed, then lists the accounts. */
    method GetMockUsers(clock: Clock, noise: nat -> int) returns (r: seq<ListedUser>)
      requires Valid()
      modifies this
      ensures Valid()
      ensures Snapshot() == Seeded(old(Snapshot()), clock, noise)
      ensures r == ListUsers(users)
    {
      Initialize(clock, noise);
      r := ListUsers(users);
    }

    /** `banUser`: reads the key directly, without seeding. */
    method BanUser(id: string)
      requires Valid()
      modifies this
      ensures Valid()
      ensures Snapshot() == old(Snapshot()).(users := WithBan(old(users), id))
    {
      AccountEditsKeepEmailsUnique(users, id, Cliente);
      users := WithBan(users, id);
    }

    /** `editUserRole`: reads the key directly, without seeding. */
    method EditUserRole(id: string, role: Role)
      requires Valid()
      modifies this
      ensures Valid()
      ensures Snapshot() == old(Snapshot()).(users := WithRole(old(users), id, role))
    {
      AccountEditsKeepEmailsUnique(users, id, role);
      users := WithRole(users, id, role);
    }

    /** `generateDemandPredictions`: seeds if needed, then reads the table. */
    method GenerateDemandPredictions(clock: Clock, noise: nat -> int) returns (r: seq<DemandPrediction>)
      requires Valid()
      modifies this
      ensures Valid()
      ensures Snapshot() == Seeded(old(Snapshot()), clock, noise)
      ensures r == predictions
      ensures !old(initialized) ==> r == DemandTable(noise)
    {
      Initialize(clock, noise);
      r := predictions;
    }

    /** `getReports`: seeds if needed, then reads the reports. */
    method GetReports(clock: Clock, noise: nat -> int) returns (r: seq<Report>)
      requires Valid()
      modifies this
      ensures Valid()
      ensures Snapshot() == Seeded(old(Snapshot()), clock, noise)
      ensures r == reports
    {
      Initialize(clock, noise);
      r := reports;
    }

    /** `resolveReport`: reads through `getReports` and writes back the
        reports with that one resolved. */
    method ResolveReport(clock: Clock, noise: nat -> int, id: string)
      requires Valid()
      modifies this
      ensures Valid()
      ensures Snapshot() ==
        var seeded := Seeded(old(Snapshot()), clock, noise);
        seeded.(reports := WithReportResolved(seeded.reports, id))
    {
      var current := GetReports(clock, noise);
      reports := WithReportResolved(current, id);
    }
  }
}
