/** The pure part of the store accessors of src/utils/mockData.ts: the
    transformation each one applies to a collection between reading it and
    writing it back, the read projections, and the invariants the writes keep. */
module Tables {
  import opened Wrappers
  import opened Records
  import opened Text
  import opened Seqs

  // ----- invariants of the stored collections -----

  /** No two accounts share an email (register refuses a taken one). */
  predicate UniqueEmails(users: seq<Account>) {
    forall i, j :: 0 <= i < j < |users| ==> users[i].email != users[j].email
  }

  /** No two PCs share an id or a number. */
  predicate UniquePCs(pcs: seq<PC>) {
    forall i, j :: 0 <= i < j < |pcs| ==> pcs[i].id != pcs[j].id && pcs[i].number != pcs[j].number
  }

  // ----- selectors used by the filters and replacements -----

  function PCHasId(id: string): PC -> bool {
    (p: PC) => p.id == id
  }

  function StatusIs(s: PCStatus): PC -> bool {
    (p: PC) => p.status == s
  }

  function SessionIdIsNot(id: string): Session -> bool {
    (s: Session) => s.id != id
  }

  function AccountHasId(id: string): Account -> bool {
    (u: Account) => u.id == id
  }

  function ReportHasId(id: string): Report -> bool {
    (r: Report) => r.id == id
  }

  function DayIs(day: string): DemandPrediction -> bool {
    (p: DemandPrediction) => p.day == day
  }

  // ----- updatePCStatus -----

  function SetStatus(s: PCStatus): PC -> PC {
    (p: PC) => p.(status := s)
  }

  /** `pcs.map(pc => pc.id === pcId ? { ...pc, status } : pc)`: the PCs with
      that id get the status, nothing else changes, order and length are kept. */
  function WithPCStatus(pcs: seq<PC>, id: string, status: PCStatus): (r: seq<PC>)
    ensures |r| == |pcs|
    ensures forall i :: 0 <= i < |pcs| ==>
      r[i].status == (if pcs[i].id == id then status else pcs[i].status)
    ensures forall i :: 0 <= i < |pcs| ==> r[i] == pcs[i].(status := r[i].status)
    ensures (forall i :: 0 <= i < |pcs| ==> pcs[i].id != id) ==> r == pcs
  {
    MapWhere(pcs, PCHasId(id), SetStatus(status))
  }

  /** A status edit keeps every id and number, so uniqueness is kept. */
  lemma WithPCStatusKeepsUnique(pcs: seq<PC>, id: string, status: PCStatus)
    requires UniquePCs(pcs)
    ensures UniquePCs(WithPCStatus(pcs, id, status))
  {
  }

  /** Setting a status twice is setting it once; the last of two edits of
      the same PC wins. */
  lemma {:induction false} WithPCStatusLastWins(pcs: seq<PC>, id: string, s1: PCStatus, s2: PCStatus)
    ensures WithPCStatus(WithPCStatus(pcs, id, s1), id, s2) == WithPCStatus(pcs, id, s2)
  {
    var a := WithPCStatus(WithPCStatus(pcs, id, s1), id, s2);
    var b := WithPCStatus(pcs, id, s2);
    assert forall i :: 0 <= i < |pcs| ==> a[i] == b[i];
  }

  // ----- endSession -----

  /** `sessions.filter(s => s.id !== sessionId)`. */
  function WithoutSession(sessions: seq<Session>, id: string): (r: seq<Session>)
    ensures forall s :: s in r <==> s in sessions && s.id != id
    ensures |r| <= |sessions|
    ensures (forall i :: 0 <= i < |sessions| ==> sessions[i].id != id) ==> r == sessions
  {
    Filter(sessions, SessionIdIsNot(id))
  }

  /** Ending a session keeps the remaining ones in their stored order,
      however many records carry the id. */
  lemma WithoutSessionAppend(a: seq<Session>, b: seq<Session>, id: string)
    ensures WithoutSession(a + b, id) == WithoutSession(a, id) + WithoutSession(b, id)
  {
    FilterAppend(a, b, SessionIdIsNot(id));
  }

  /** Ending the session with an id that exactly one stored session has
      removes exactly that one record. */
  lemma {:induction false} WithoutSessionRemovesOne(sessions: seq<Session>, k: nat)
    requires k < |sessions|
    requires forall i :: 0 <= i < |sessions| && i != k ==> sessions[i].id != sessions[k].id
    ensures WithoutSession(sessions, sessions[k].id) == sessions[..k] + sessions[k + 1..]
    ensures |WithoutSession(sessions, sessions[k].id)| == |sessions| - 1
  {
    FilterDropsOne(sessions, k, SessionIdIsNot(sessions[k].id));
  }

  // ----- banUser and editUserRole -----

  function SetBanned(): Account -> Account {
    (u: Account) => u.(isBanned := true)
  }

  function SetRole(role: Role): Account -> Account {
    (u: Account) => u.(role := role)
  }

  /** `users.map(u => u.id === userId ? { ...u, isBanned: true } : u)`. */
  function WithBan(users: seq<Account>, id: string): (r: seq<Account>)
    ensures |r| == |users|
    ensures forall i :: 0 <= i < |users| ==>
      r[i].isBanned == (users[i].id == id || users[i].isBanned)
    ensures forall i :: 0 <= i < |users| ==> r[i] == users[i].(isBanned := r[i].isBanned)
    ensures (forall i :: 0 <= i < |users| ==> users[i].id != id) ==> r == users
  {
    MapWhere(users, AccountHasId(id), SetBanned())
  }

  /** Banning twice gives the same collection as banning once. */
  lemma WithBanIdempotent(users: seq<Account>, id: string)
    ensures WithBan(WithBan(users, id), id) == WithBan(users, id)
  {
    MapWhereIdempotent(users, AccountHasId(id), SetBanned());
  }

  /** `users.map(u => u.id === userId ? { ...u, role } : u)`. */
  function WithRole(users: seq<Account>, id: string, role: Role): (r: seq<Account>)
    ensures |r| == |users|
    ensures forall i :: 0 <= i < |users| ==>
      r[i].role == (if users[i].id == id then role else users[i].role)
    ensures forall i :: 0 <= i < |users| ==> r[i] == users[i].(role := r[i].role)
    ensures (forall i :: 0 <= i < |users| ==> users[i].id != id) ==> r == users
  {
    MapWhere(users, AccountHasId(id), SetRole(role))
  }

  /** Ban and role edits keep every email, so email uniqueness is kept. */
  lemma AccountEditsKeepEmailsUnique(users: seq<Account>, id: string, role: Role)
    requires UniqueEmails(users)
    ensures UniqueEmails(WithBan(users, id))
    ensures UniqueEmails(WithRole(users, id, role))
  {
  }

  // ----- resolveReport -----

  function SetResolved(): Report -> Report {
    (r: Report) => r.(status := Resuelto)
  }

  /** `reports.map(r => r.id === reportId ? { ...r, status: 'resuelto' } : r)`. */
  function WithReportResolved(reports: seq<Report>, id: string): (r: seq<Report>)
    ensures |r| == |reports|
    ensures forall i :: 0 <= i < |reports| ==>
      r[i].status == (if reports[i].id == id then Resuelto else reports[i].status)
    ensures forall i :: 0 <= i < |reports| ==> r[i] == reports[i].(status := r[i].status)
    ensures (forall i :: 0 <= i < |reports| ==> reports[i].id != id) ==> r == reports
  {
    MapWhere(reports, ReportHasId(id), SetResolved())
  }

  /** Resolving an already resolved report changes nothing. */
  lemma WithReportResolvedIdempotent(reports: seq<Report>, id: string)
    ensures WithReportResolved(WithReportResolved(reports, id), id) == WithReportResolved(reports, id)
  {
    MapWhereIdempotent(reports, ReportHasId(id), SetResolved());
  }

  // ----- getActiveSessions -----

  /** `Math.floor((now - start) / 60000)`: whole minutes since the start. */
  function ElapsedMinutes(startMs: int, nowMs: int): (m: int)
    ensures m * 60000 <= nowMs - startMs < (m + 1) * 60000
  {
    (nowMs - startMs) / 60000
  }

  /** `users.find(u => u.id === userId)?.name || 'Desconocido'`. */
  function DisplayName(users: seq<Account>, userId: string): (name: string)
    ensures name != ""
    ensures (forall i :: 0 <= i < |users| ==> users[i].id != userId) ==> name == "Desconocido"
    ensures name == "Desconocido" || exists i :: 0 <= i < |users| && users[i].id == userId && users[i].name == name
    ensures forall k :: 0 <= k < |users| && users[k].id == userId && (forall j :: 0 <= j < k ==> users[j].id != userId) ==>
      name == (if users[k].name != "" then users[k].name else "Desconocido")
  {
    match Find(users, AccountHasId(userId))
    case Some(u) => if u.name != "" then u.name else "Desconocido"
    case None => "Desconocido"
  }

  /** The first account with the id names the session, whatever later
      accounts with the same id say: its name, or 'Desconocido' when that
      name is empty. */
  lemma DisplayNameFirstMatch(users: seq<Account>, k: nat)
    requires k < |users|
    requires forall j :: 0 <= j < k ==> users[j].id != users[k].id
    ensures DisplayName(users, users[k].id) == (if users[k].name != "" then users[k].name else "Desconocido")
  {
    var i := FindIndex(users, AccountHasId(users[k].id));
    assert i == Some(k);
  }

  function SessionView(s: Session, users: seq<Account>, nowMs: int): Session {
    s.(userName := DisplayName(users, s.userId), elapsedTime := ElapsedMinutes(s.startMs, nowMs))
  }

  /** The session list as read: one entry per stored session, in order, with
      the name looked up and the minutes recomputed; all else as stored. */
  function SessionsView(sessions: seq<Session>, users: seq<Account>, nowMs: int): (r: seq<Session>)
    ensures |r| == |sessions|
    ensures forall i :: 0 <= i < |sessions| ==>
      r[i] == sessions[i].(userName := r[i].userName, elapsedTime := r[i].elapsedTime)
    ensures forall i :: 0 <= i < |sessions| ==>
      r[i].userName == DisplayName(users, sessions[i].userId) &&
      r[i].elapsedTime * 60000 <= nowMs - sessions[i].startMs < (r[i].elapsedTime + 1) * 60000
  {
    seq(|sessions|, i requires 0 <= i < |sessions| => SessionView(sessions[i], users, nowMs))
  }

  // ----- getMockUsers -----

  function Listed(u: Account): ListedUser {
    ListedUser(u.id, u.name, u.email, u.role, DatePart(u.createdAt), u.isBanned)
  }

  /** The accounts in stored order without their passwords, each creation
      date cut before its 'T'. */
  function ListUsers(users: seq<Account>): (r: seq<ListedUser>)
    ensures |r| == |users|
    ensures forall i :: 0 <= i < |users| ==>
      r[i].id == users[i].id && r[i].name == users[i].name && r[i].email == users[i].email &&
      r[i].role == users[i].role && r[i].isBanned == users[i].isBanned
    ensures forall i :: 0 <= i < |users| ==> r[i].createdAt == DatePart(users[i].createdAt)
  {
    seq(|users|, i requires 0 <= i < |users| => Listed(users[i]))
  }
}
