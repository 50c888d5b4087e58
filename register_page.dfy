/** The registration form of src/pages/Register.tsx: two password checks,
    then `register` with 'cliente' in the invite-code position, then
    navigation to the dashboard or the error message. */
module RegisterPage {
  import opened Wrappers
  import opened Records
  import opened Store
  import opened Auth

  const MinPasswordLength: nat := 6

  /** What the user sees after submitting. */
  datatype Feedback = PasswordsDiffer | PasswordTooShort | RegisterError(message: string) | NavigatedToDashboard

  /** The checks that run before `register`: the mismatch check first, then
      the length check (six characters are enough). */
  function CheckPasswords(password: string, confirmPassword: string): (r: Option<Feedback>)
    ensures r == Some(PasswordsDiffer) <==> password != confirmPassword
    ensures r == Some(PasswordTooShort) <==> password == confirmPassword && |password| < MinPasswordLength
    ensures r == None <==> password == confirmPassword && |password| >= MinPasswordLength
  {
    if password != confirmPassword then Some(PasswordsDiffer)
    else if |password| < MinPasswordLength then Some(PasswordTooShort)
    else None
  }

  /** The fixed fourth argument the page passes to `register`. */
  const FixedInviteArgument: Option<string> := Some("cliente")

  /** Every account this page creates is a customer. */
  lemma PageRegistrationsAreCustomers(id: string, name: string, email: string, password: string, createdAt: string)
    ensures NewAccount(id, name, email, password, FixedInviteArgument, createdAt).role == Cliente
  {
  }

  /** `handleSubmit`: a failed check reports its error and calls nothing;
      otherwise `register` runs and the page navigates exactly when it does
      not throw, showing the thrown message when it does. */
  method HandleSubmit(auth: AuthProvider, name: string, email: string, password: string,
                      confirmPassword: string, freshId: string, clock: Clock) returns (feedback: Feedback)
    requires auth.Valid()
    modifies auth, auth.store
    ensures auth.Valid()
    ensures CheckPasswords(password, confirmPassword).Some? ==>
      feedback == CheckPasswords(password, confirmPassword).value &&
      auth.user == old(auth.user) && auth.isLoading == old(auth.isLoading) &&
      auth.store.Snapshot() == old(auth.store.Snapshot())
    ensures CheckPasswords(password, confirmPassword).None? ==>
      var account := NewAccount(freshId, name, email, password, FixedInviteArgument, clock.iso(clock.nowMs));
      var registered := Registered(old(auth.store.users), account);
      && (feedback == NavigatedToDashboard <==> registered.Some?)
      && (registered.Some? ==>
            account.role == Cliente && auth.user == Some(PublicOf(account)) && !auth.isLoading &&
            auth.store.Snapshot() == old(auth.store.Snapshot()).(users := registered.value,
                                                            currentUser := Some(Parsed(PublicOf(account)))))
      && (registered.None? ==>
            feedback == RegisterError(EmailAlreadyRegistered) && auth.user == old(auth.user) &&
            auth.isLoading && auth.store.Snapshot() == old(auth.store.Snapshot()))
  {
    var problem := CheckPasswords(password, confirmPassword);
    if problem.Some? {
      return problem.value;
    }
    var outcome := auth.Register(name, email, password, FixedInviteArgument, freshId, clock);
    match outcome {
      case Pass =>
        feedback := NavigatedToDashboard;
      case Fail(message) =>
        feedback := RegisterError(if message != "" then message else "Error al registrar usuario");
    }
  }
}
