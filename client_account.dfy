/** The account page of src/pages/client/ClientAccount.tsx: the current
    user's reservation history, cancelling a reservation, and the PC number
    shown beside each one. */
module ClientAccount {
  import opened Wrappers
  import opened Records
  import opened Seqs
  import opened Store
  import opened Auth
  import Text
  import Seed
  import Tables

  function BookedBy(userId: Option<string>): Reservation -> bool {
    (r: Reservation) => r.userId == userId
  }

  /** `loadReservations`: the stored reservations whose `userId` equals the
      current user's id, in stored order. With no one logged in, that is the
      reservations booked without a user. */
  function UserReservations(all: seq<Reservation>, user: Option<PublicUser>): (r: seq<Reservation>)
    ensures forall x :: x in r <==> x in all && x.userId == IdOf(user)
    ensures |r| <= |all|
    ensures (forall i :: 0 <= i < |all| ==> all[i].userId == IdOf(user)) ==> r == all
  {
    Filter(all, BookedBy(IdOf(user)))
  }

  /** The listing is order-preserving: booking one more reservation for the
      user puts it at the end of their list, and one for someone else leaves
      the list alone. */
  lemma UserReservationsAppend(all: seq<Reservation>, x: Reservation, user: Option<PublicUser>)
    ensures x.userId == IdOf(user) ==> UserReservations(all + [x], user) == UserReservations(all, user) + [x]
    ensures x.userId != IdOf(user) ==> UserReservations(all + [x], user) == UserReservations(all, user)
  {
    FilterAppend(all, [x], BookedBy(IdOf(user)));
  }

  function ReservationHasId(id: string): Reservation -> bool {
    (r: Reservation) => r.id == id
  }

  function SetCancelled(): Reservation -> Reservation {
    (r: Reservation) => r.(status := Cancelada)
  }

  /** The store side of `handleCancelReservation`: every reservation with
      this id becomes `cancelada`, whoever owns it and whatever its status
      was; everything else stays as it was. */
  function Cancelled(all: seq<Reservation>, id: string): (r: seq<Reservation>)
    ensures |r| == |all|
    ensures forall i :: 0 <= i < |all| ==>
      r[i] == (if all[i].id == id then all[i].(status := Cancelada) else all[i])
    ensures (forall i :: 0 <= i < |all| ==> all[i].id != id) ==> r == all
  {
    MapWhere(all, ReservationHasId(id), SetCancelled())
  }

  /** Cancelling twice is cancelling once. */
  lemma CancelledIdempotent(all: seq<Reservation>, id: string)
    ensures Cancelled(Cancelled(all, id), id) == Cancelled(all, id)
  {
    MapWhereIdempotent(all, ReservationHasId(id), SetCancelled());
  }

  /** The cancel button is shown only for active reservations. */
  predicate CancelOffered(r: Reservation) {
    r.status == Activa
  }

  /** After a cancel, no reservation with that id in the user's list is
      offered for cancelling again. */
  lemma CancelledNotOffered(all: seq<Reservation>, id: string, user: Option<PublicUser>)
    ensures forall x :: x in UserReservations(Cancelled(all, id), user) && x.id == id ==> !CancelOffered(x)
  {
    var r := Cancelled(all, id);
    forall x | x in UserReservations(r, user) && x.id == id
      ensures !CancelOffered(x)
    {
      var i :| 0 <= i < |r| && r[i] == x;
      assert r[i].id == all[i].id;
    }
  }

  /** What `getPCNumber` shows: the number, or 'Desconocido'. */
  datatype PCLabel = Number(n: int) | Unknown

  /** `getPCNumber`: the number of the first PC with this id. A missing PC,
      and a number that is 0 and so falsy, both show 'Desconocido'. The
      collection is read as it is, without seeding. */
  function PCNumber(pcs: seq<PC>, pcId: string): (r: PCLabel)
    ensures r.Unknown? <==> match FindIndex(pcs, Tables.PCHasId(pcId)) {
      case None => true
      case Some(i) => pcs[i].number == 0
    }
    ensures r.Number? ==> exists i :: 0 <= i < |pcs| && pcs[i].id == pcId && pcs[i].number == r.n
    ensures forall k :: 0 <= k < |pcs| && pcs[k].id == pcId && (forall j :: 0 <= j < k ==> pcs[j].id != pcId) ==>
      r == (if pcs[k].number != 0 then Number(pcs[k].number) else Unknown)
    ensures (forall i :: 0 <= i < |pcs| ==> pcs[i].id != pcId) ==> r == Unknown
  {
    match FindIndex(pcs, Tables.PCHasId(pcId))
    case None => Unknown
    case Some(i) => if pcs[i].number == 0 then Unknown else Number(pcs[i].number)
  }

  /** On the fixture, the PC with id `pc-k` shows number k. */
  lemma PCNumberOfSeed(k: nat)
    requires 1 <= k <= Seed.PCCount
    ensures PCNumber(Seed.SeedPCs(), "pc-" + Text.NatToString(k)) == Number(k)
  {
    var pcs := Seed.SeedPCs();
    Seed.SeedPCsWellFormed();
    var id := "pc-" + Text.NatToString(k);
    assert pcs[k - 1].id == id;
    var found := FindIndex(pcs, Tables.PCHasId(id));
    assert found.Some?;
    assert found.value == k - 1;
  }

  /** The account page: its reservation list is component state. */
  class AccountPage {
    const store: LocalStore
    const user: Option<PublicUser>
    var reservations: seq<Reservation>

    ghost predicate Valid()
      reads this, store
    {
      store.Valid()
    }

    /** The page mounts with an empty list and loads it from the store. */
    constructor (store: LocalStore, user: Option<PublicUser>)
      requires store.Valid()
      ensures this.store == store && this.user == user && Valid()
      ensures reservations == UserReservations(store.reservations, user)
    {
      this.store := store;
      this.user := user;
      reservations := UserReservations(store.reservations, user);
    }

    method LoadReservations()
      requires Valid()
      modifies this
      ensures Valid()
      ensures reservations == UserReservations(store.reservations, user)
    {
      reservations := UserReservations(store.reservations, user);
    }

    /** `handleCancelReservation`: rewrite the stored reservations, then
        reload the list. No other collection changes. */
    method HandleCancelReservation(id: string)
      requires Valid()
      modifies this, store
      ensures Valid()
      ensures store.Snapshot() == old(store.Snapshot()).(reservations := Cancelled(old(store.reservations), id))
      ensures reservations == UserReservations(Cancelled(old(store.reservations), id), user)
    {
      store.reservations := Cancelled(store.reservations, id);
      LoadReservations();
    }
  }
}
