/** The account registry of src/contexts/AuthContext.tsx: `login`,
    `register`, `logout`, `updateUser` and the restore of the cached user
    when the provider mounts, over the store's `users` collection and its
    `cybercafe_user` key. */
module Auth {
  import opened Wrappers
  import opened Records
  import opened Seqs
  import opened Tables
  import opened Seed
  import opened Store

  const AdminInviteCode: string := "CYBER2025"
  const WrongCredentials: string := "Credenciales incorrectas"
  const EmailAlreadyRegistered: string := "Email ya registrado"

  /** The cached projection of an account: id, email, name and role only. */
  function PublicOf(u: Account): PublicUser {
    PublicUser(u.id, u.email, u.name, u.role)
  }

  /** Among accounts with unique emails, different accounts have different
      cached projections: the cached user identifies one account. */
  lemma PublicOfIdentifies(users: seq<Account>, i: nat, j: nat)
    requires UniqueEmails(users) && i < |users| && j < |users|
    ensures i != j ==> PublicOf(users[i]) != PublicOf(users[j])
  {
    if i > j {
      assert users[j].email != users[i].email;
    }
  }

  /** `user?.id` and `user?.name`: absent when no one is logged in. */
  function IdOf(user: Option<PublicUser>): Option<string> {
    if user.Some? then Some(user.value.id) else None
  }

  function NameOf(user: Option<PublicUser>): Option<string> {
    if user.Some? then Some(user.value.name) else None
  }

  function CredentialsMatch(email: string, password: string): Account -> bool {
    (u: Account) => u.email == email && u.password == password
  }

  /** `users.find(u => u.email === email && u.password === password)`,
      projected to the cached user. */
  function Authenticate(users: seq<Account>, email: string, password: string): (r: Option<PublicUser>)
    ensures r.Some? <==> exists i :: 0 <= i < |users| && users[i].email == email && users[i].password == password
    ensures r.Some? ==>
      exists i :: 0 <= i < |users| && users[i].email == email && users[i].password == password &&
        r.value == PublicOf(users[i]) &&
        forall j :: 0 <= j < i ==> !(users[j].email == email && users[j].password == password)
  {
    match FindIndex(users, CredentialsMatch(email, password))
    case Some(i) => Some(PublicOf(users[i]))
    case None => None
  }

  /** Login never looks at the ban flag: banning any account leaves every
      login attempt with the same result. */
  lemma AuthenticateIgnoresBan(users: seq<Account>, id: string, email: string, password: string)
    ensures Authenticate(WithBan(users, id), email, password) == Authenticate(users, email, password)
  {
    var banned := WithBan(users, id);
    FindIndexSamePositions(banned, CredentialsMatch(email, password), users, CredentialsMatch(email, password));
  }

  /** `users.some(u => u.email === email)`: exact, case-sensitive comparison. */
  predicate EmailTaken(users: seq<Account>, email: string) {
    exists i :: 0 <= i < |users| && users[i].email == email
  }

  /** The role a registration gets from its invite code. */
  function RoleFor(inviteCode: Option<string>): (role: Role)
    ensures role == Admin <==> inviteCode == Some(AdminInviteCode)
  {
    if inviteCode == Some(AdminInviteCode) then Admin else Cliente
  }

  /** The account `register` appends: not banned, and an admin exactly
      when the invite code is right. */
  function NewAccount(id: string, name: string, email: string, password: string,
                      inviteCode: Option<string>, createdAt: string): (a: Account)
    ensures a.role == Admin <==> inviteCode == Some(AdminInviteCode)
    ensures !a.isBanned && a.email == email && a.password == password
  {
    Account(id, name, email, password, RoleFor(inviteCode), createdAt, false)
  }

  /** What `register` does to the accounts: refuse a taken email, otherwise
      append exactly one unbanned account and keep the others. */
  function Registered(users: seq<Account>, account: Account): (r: Option<seq<Account>>)
    ensures r.None? <==> EmailTaken(users, account.email)
    ensures r.Some? ==> |r.value| == |users| + 1 && r.value[..|users|] == users && r.value[|users|] == account
  {
    if EmailTaken(users, account.email) then None else Some(users + [account])
  }

  /** A successful registration keeps emails unique. */
  lemma RegisteredKeepsEmailsUnique(users: seq<Account>, account: Account)
    requires UniqueEmails(users)
    requires Registered(users, account).Some?
    ensures UniqueEmails(Registered(users, account).value)
  {
    var r := Registered(users, account).value;
    forall i, j | 0 <= i < j < |r|
      ensures r[i].email != r[j].email
    {
      if j == |users| {
        assert r[i] == users[i];
      }
    }
  }

  /** Right after registering, the same email and password log in as the
      new account, whatever accounts came before it. */
  lemma {:induction false} LoginAfterRegister(users: seq<Account>, account: Account)
    requires Registered(users, account).Some?
    ensures Authenticate(Registered(users, account).value, account.email, account.password) == Some(PublicOf(account))
  {
    var r := Registered(users, account).value;
    var i := FindIndex(r, CredentialsMatch(account.email, account.password));
    assert CredentialsMatch(account.email, account.password)(r[|users|]);
    assert i.Some?;
  }

  /** Seeding and then registering Ana from the registration page (which
      passes 'cliente' as the invite code) gives four accounts, the new one
      a customer and not banned. */
  lemma RegisterAnaAfterSeed(createdAt: string, id: string, now: string)
    ensures var users := SeedUsers(createdAt);
      var ana := NewAccount(id, "Ana", "ana@x.com", "secret1", Some("cliente"), now);
      var r := Registered(users, ana);
      r.Some? && |r.value| == 4 && r.value[3].role == Cliente && !r.value[3].isBanned
  {
    var users := SeedUsers(createdAt);
    assert !EmailTaken(users, "ana@x.com") by {
      assert users[0].email[0] == 'a' && users[0].email[1] == 'd';
      assert users[1].email[0] == 'j' && users[2].email[0] == 'm';
    }
  }

  /** A `Partial<User>`: the fields present in an `updateUser` call. */
  datatype UserUpdates = UserUpdates(id: Option<string>, email: Option<string>, name: Option<string>, role: Option<Role>)

  /** `{ ...user, ...updates }`. */
  function Override(u: PublicUser, upd: UserUpdates): PublicUser {
    PublicUser(upd.id.GetOr(u.id), upd.email.GetOr(u.email), upd.name.GetOr(u.name), upd.role.GetOr(u.role))
  }

  /** `{ ...a, ...b }` on two partial users. */
  function Merge(a: UserUpdates, b: UserUpdates): UserUpdates {
    UserUpdates(if b.id.Some? then b.id else a.id, if b.email.Some? then b.email else a.email,
                if b.name.Some? then b.name else a.name, if b.role.Some? then b.role else a.role)
  }

  /** Two updates in a row are one update with the later fields winning;
      an update with no fields changes nothing, and repeating one is harmless. */
  lemma OverrideLaws(u: PublicUser, a: UserUpdates, b: UserUpdates)
    ensures Override(Override(u, a), b) == Override(u, Merge(a, b))
    ensures Override(u, UserUpdates(None, None, None, None)) == u
    ensures Override(Override(u, a), a) == Override(u, a)
  {
  }

  class AuthProvider {
    const store: LocalStore
    var user: Option<PublicUser>
    var isLoading: bool

    ghost predicate Valid()
      reads this, store
    {
      store.Valid()
    }

    /** `useState<User | null>(null)` and `useState(true)`. */
    constructor (store: LocalStore)
      requires store.Valid()
      ensures this.store == store && Valid()
      ensures user == None && isLoading
    {
      this.store := store;
      user := None;
      isLoading := true;
    }

    /** The mount effect: seed the store, restore the cached user if it
        parses, drop the key if it does not, and stop loading. */
    method Mount(clock: Clock, noise: nat -> int)
      requires Valid()
      modifies this, store
      ensures Valid()
      ensures store.Snapshot() ==
        var seeded := Seeded(old(store.Snapshot()), clock, noise);
        if seeded.currentUser == Some(Malformed) then seeded.(currentUser := None) else seeded
      ensures user == (if old(store.currentUser).Some? && old(store.currentUser).value.Parsed?
                       then Some(old(store.currentUser).value.user) else old(user))
      ensures !isLoading
    {
      store.Initialize(clock, noise);
      match store.currentUser {
        case Some(Parsed(u)) =>
          user := Some(u);
        case Some(Malformed) =>
          store.currentUser := None;
        case None =>
      }
      isLoading := false;
    }

    /** `login`: the first account with this email and password becomes the
        current user. On failure nothing is written, the current user stays
        and `isLoading` stays true. */
    method Login(email: string, password: string) returns (outcome: Outcome)
      requires Valid()
      modifies this, store
      ensures Valid()
      ensures var found := Authenticate(old(store.users), email, password);
        && (outcome.Pass? <==> found.Some?)
        && (found.Some? ==>
              user == found && !isLoading &&
              store.Snapshot() == old(store.Snapshot()).(currentUser := Some(Parsed(found.value))))
        && (found.None? ==>
              outcome == Fail(WrongCredentials) && user == old(user) && isLoading &&
              store.Snapshot() == old(store.Snapshot()))
    {
      isLoading := true;
      var found := Authenticate(store.users, email, password);
      if found.None? {
        return Fail(WrongCredentials);
      }
      user := found;
      store.currentUser := Some(Parsed(found.value));
      isLoading := false;
      outcome := Pass;
    }

    /** `register`: refuse a taken email; otherwise append one account, admin
        exactly when the invite code is 'CYBER2025', and log it in. The id
        `Date.now().toString()` and the creation date are supplied. */
    method Register(name: string, email: string, password: string, inviteCode: Option<string>,
                    freshId: string, clock: Clock) returns (outcome: Outcome)
      requires Valid()
      modifies this, store
      ensures Valid()
      ensures var account := NewAccount(freshId, name, email, password, inviteCode, clock.iso(clock.nowMs));
        var registered := Registered(old(store.users), account);
        && (outcome.Pass? <==> registered.Some?)
        && (registered.Some? ==>
              user == Some(PublicOf(account)) && !isLoading &&
              store.Snapshot() == old(store.Snapshot()).(users := registered.value,
                                                       currentUser := Some(Parsed(PublicOf(account)))))
        && (registered.None? ==>
              outcome == Fail(EmailAlreadyRegistered) && user == old(user) && isLoading &&
              store.Snapshot() == old(store.Snapshot()))
    {
      isLoading := true;
      var account := NewAccount(freshId, name, email, password, inviteCode, clock.iso(clock.nowMs));
      if EmailTaken(store.users, email) {
        return Fail(EmailAlreadyRegistered);
      }
      RegisteredKeepsEmailsUnique(store.users, account);
      store.users := store.users + [account];
      var userData := PublicOf(account);
      user := Some(userData);
      store.currentUser := Some(Parsed(userData));
      isLoading := false;
      outcome := Pass;
    }

    /** `logout`: forget the current user and remove the cached key. */
    method Logout()
      requires Valid()
      modifies this, store
      ensures Valid()
      ensures user == None && isLoading == old(isLoading)
      ensures store.Snapshot() == old(store.Snapshot()).(currentUser := None)
    {
      user := None;
      store.currentUser := None;
    }

    /** `updateUser`: nothing without a current user; otherwise the current
        user, cached and in state, is overridden field by field. */
    method UpdateUser(updates: UserUpdates)
      requires Valid()
      modifies this, store
      ensures Valid()
      ensures isLoading == old(isLoading)
      ensures old(user).None? ==> user == None && store.Snapshot() == old(store.Snapshot())
      ensures old(user).Some? ==>
        user == Some(Override(old(user).value, updates)) &&
        store.Snapshot() == old(store.Snapshot()).(currentUser := Some(Parsed(user.value)))
    {
      if user.None? {
        return;
      }
      var updated := Override(user.value, updates);
      user := Some(updated);
      store.currentUser := Some(Parsed(updated));
    }
  }
}
