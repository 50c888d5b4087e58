/** The user management page of src/pages/admin/AdminUserManagement.tsx:
    the search filter and the role and ban actions, which refuse to act on
    the logged-in admin's own account. */
module AdminUsers {
  import opened Wrappers
  import opened Records
  import opened Seqs
  import opened Text
  import opened Tables
  import opened Store
  import opened Auth

  /** A listed user matches when the lower-cased name or email contains the
      lower-cased term. */
  function MatchesTerm(term: string): ListedUser -> bool {
    (u: ListedUser) => Contains(ToLower(u.name), ToLower(term)) || Contains(ToLower(u.email), ToLower(term))
  }

  /** `filteredUsers`: the matching users, in order; an empty term keeps
      them all. */
  function FilteredUsers(users: seq<ListedUser>, term: string): (r: seq<ListedUser>)
    ensures forall u :: u in r <==>
      u in users && (Contains(ToLower(u.name), ToLower(term)) || Contains(ToLower(u.email), ToLower(term)))
    ensures |r| <= |users|
    ensures term == [] ==> r == users
  {
    if term == [] then
      forall u: ListedUser ensures MatchesTerm(term)(u) {
        ContainsEmpty(ToLower(u.name));
      }
      Filter(users, MatchesTerm(term))
    else
      Filter(users, MatchesTerm(term))
  }

  /** The search keeps the listing's order: the matches among later users
      come after those among earlier ones. */
  lemma FilteredUsersAppend(a: seq<ListedUser>, b: seq<ListedUser>, term: string)
    ensures FilteredUsers(a + b, term) == FilteredUsers(a, term) + FilteredUsers(b, term)
  {
    FilterAppend(a, b, MatchesTerm(term));
  }

  /** The search ignores the case of the term. */
  lemma FilteredUsersIgnoresTermCase(users: seq<ListedUser>, term: string)
    ensures FilteredUsers(users, ToLower(term)) == FilteredUsers(users, term)
  {
    ToLowerIdempotent(term);
  }

  function ListedHasId(id: string): ListedUser -> bool {
    (u: ListedUser) => u.id == id
  }

  /** The page's own copy of a role change. */
  function ListedWithRole(users: seq<ListedUser>, id: string, role: Role): (r: seq<ListedUser>)
    ensures |r| == |users|
    ensures forall i :: 0 <= i < |users| ==> r[i] == (if users[i].id == id then users[i].(role := role) else users[i])
  {
    MapWhere(users, ListedHasId(id), (u: ListedUser) => u.(role := role))
  }

  /** The page's own copy of a ban. */
  function ListedWithBan(users: seq<ListedUser>, id: string): (r: seq<ListedUser>)
    ensures |r| == |users|
    ensures forall i :: 0 <= i < |users| ==> r[i] == (if users[i].id == id then users[i].(isBanned := true) else users[i])
  {
    MapWhere(users, ListedHasId(id), (u: ListedUser) => u.(isBanned := true))
  }

  /** Changing the page's list is the same as changing the store and
      listing it again: the page and the store stay in step. */
  lemma EditsCommuteWithListing(accounts: seq<Account>, id: string, role: Role)
    ensures ListUsers(WithRole(accounts, id, role)) == ListedWithRole(ListUsers(accounts), id, role)
    ensures ListUsers(WithBan(accounts, id)) == ListedWithBan(ListUsers(accounts), id)
  {
  }

  /** The ban button is shown only for users who are not banned. */
  predicate BanOffered(u: ListedUser) {
    !u.isBanned
  }

  /** Once banned, a user is no longer offered the ban button. */
  lemma BannedNotOffered(users: seq<ListedUser>, id: string)
    ensures forall u :: u in ListedWithBan(users, id) && u.id == id ==> !BanOffered(u)
  {
    var r := ListedWithBan(users, id);
    forall u | u in r && u.id == id
      ensures !BanOffered(u)
    {
      var i :| 0 <= i < |r| && r[i] == u;
      assert users[i].id == id;
    }
  }

  /** The guard of both actions: the target is the logged-in account. */
  predicate IsSelf(currentUser: Option<PublicUser>, userId: string) {
    IdOf(currentUser) == Some(userId)
  }

  class UserManagementPage {
    const store: LocalStore
    const currentUser: Option<PublicUser>
    var users: seq<ListedUser>
    var editingId: Option<string>

    ghost predicate Valid()
      reads this, store
    {
      store.Valid()
    }

    constructor (store: LocalStore, currentUser: Option<PublicUser>)
      requires store.Valid()
      ensures this.store == store && this.currentUser == currentUser && Valid()
      ensures users == [] && editingId == None
    {
      this.store := store;
      this.currentUser := currentUser;
      users := [];
      editingId := None;
    }

    /** The mount effect: `getMockUsers()`, which seeds the store if needed. */
    method Load(clock: Clock, noise: nat -> int)
      requires Valid()
      modifies this, store
      ensures Valid()
      ensures store.Snapshot() == Seeded(old(store.Snapshot()), clock, noise)
      ensures users == ListUsers(store.users) && editingId == old(editingId)
    {
      users := store.GetMockUsers(clock, noise);
    }

    method OpenRoleEditor(userId: string)
      requires Valid()
      modifies this
      ensures Valid() && users == old(users) && editingId == Some(userId)
    {
      editingId := Some(userId);
    }

    /** `handleEditRole`: refused on the admin's own account, with nothing
        written; otherwise only the target's role changes, in the store and
        on the page, and the editor closes. */
    method HandleEditRole(userId: string, newRole: Role) returns (ok: bool)
      requires Valid()
      modifies this, store
      ensures Valid()
      ensures ok <==> !IsSelf(currentUser, userId)
      ensures !ok ==> store.Snapshot() == old(store.Snapshot())
      ensures !ok ==> users == old(users) && editingId == old(editingId)
      ensures ok ==> store.Snapshot() == old(store.Snapshot()).(users := WithRole(old(store.users), userId, newRole))
      ensures ok ==> users == ListedWithRole(old(users), userId, newRole) && editingId == None
      ensures ok && old(users) == ListUsers(old(store.users)) ==> users == ListUsers(store.users)
    {
      if IsSelf(currentUser, userId) {
        return false;
      }
      EditsCommuteWithListing(store.users, userId, newRole);
      store.EditUserRole(userId, newRole);
      users := ListedWithRole(users, userId, newRole);
      editingId := None;
      ok := true;
    }

    /** `handleBanUser`: refused on the admin's own account, with nothing
        written; otherwise only the target becomes banned, in the store and
        on the page. The editor is left as it was. */
    method HandleBanUser(userId: string) returns (ok: bool)
      requires Valid()
      modifies this, store
      ensures Valid()
      ensures ok <==> !IsSelf(currentUser, userId)
      ensures editingId == old(editingId)
      ensures !ok ==> store.Snapshot() == old(store.Snapshot()) && users == old(users)
      ensures ok ==> store.Snapshot() == old(store.Snapshot()).(users := WithBan(old(store.users), userId))
      ensures ok ==> users == ListedWithBan(old(users), userId)
      ensures ok && old(users) == ListUsers(old(store.users)) ==> users == ListUsers(store.users)
    {
      if IsSelf(currentUser, userId) {
        return false;
      }
      EditsCommuteWithListing(store.users, userId, Cliente);
      store.BanUser(userId);
      users := ListedWithBan(users, userId);
      ok := true;
    }
  }
}
