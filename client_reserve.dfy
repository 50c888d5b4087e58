/** The booking form of src/pages/client/ClientReserve.tsx: the list of free
    PCs, the form check, the appended reservation and the price shown. */
module ClientReserve {
  import opened Wrappers
  import opened Records
  import opened Seqs
  import opened Text
  import opened Tables
  import opened Store
  import opened Auth

  /** The hours the duration selector offers; its value is the decimal text
      of one of them. */
  const DurationChoices: seq<nat> := [1, 2, 3, 4, 6, 8]

  /** Dollars per hour in the total the form shows. */
  const HourlyRate: nat := 5

  /** The selectable PCs: exactly the stored ones that are free, in order. */
  function FreePCs(pcs: seq<PC>): (r: seq<PC>)
    ensures forall p :: p in r <==> p in pcs && p.status == Libre
    ensures |r| <= |pcs|
  {
    Filter(pcs, StatusIs(Libre))
  }

  /** On the fixture, 16 of the 20 PCs can be booked. */
  lemma FreePCsOfSeed()
    ensures |FreePCs(Seed.SeedPCs())| == 16
  {
    Seed.SeedStatusCounts();
  }

  /** `${date}T${time}:00`: the date, a 'T', the time and zero seconds. */
  function StartTime(date: string, time: string): (r: string)
    ensures |r| == |date| + |time| + 4
    ensures r[..|date|] == date && r[|date|] == 'T'
    ensures r[|date| + 1..|date| + 1 + |time|] == time && r[|date| + 1 + |time|..] == ":00"
  {
    date + "T" + time + ":00"
  }

  /** Cutting a start time at its first 'T' gives the date back, as long as
      the date has no 'T' of its own (an `<input type="date">` value never
      does). */
  lemma DateOfStartTime(date: string, time: string)
    requires 'T' !in date
    ensures DatePart(StartTime(date, time)) == date
  {
    var s := StartTime(date, time);
    assert s[|date|] == 'T';
    assert s[..|date|] == date;
  }

  /** `parseInt(duration)` on a decimal string: the text of a number
      gives that number back. */
  function Hours(duration: string): (h: nat)
    requires ParseNat(duration).Some?
    ensures forall n: nat :: duration == NatToString(n) ==> h == n
  {
    forall n: nat | duration == NatToString(n)
      ensures ParseNat(duration) == Some(n)
    {
      ParseNatToString(n);
    }
    ParseNat(duration).value
  }

  /** The total shown: `parseInt(duration) * 5`, five dollars for each hour
      the text names. */
  function DisplayedTotal(duration: string): (total: nat)
    requires ParseNat(duration).Some?
    ensures forall n: nat :: duration == NatToString(n) ==> total == HourlyRate * n
    ensures total % HourlyRate == 0
  {
    Hours(duration) * HourlyRate
  }

  /** The selectable PCs keep the store's order: listing a longer store
      lists the longer part after the shorter. */
  lemma FreePCsAppend(a: seq<PC>, b: seq<PC>)
    ensures FreePCs(a + b) == FreePCs(a) + FreePCs(b)
  {
    FilterAppend(a, b, StatusIs(Libre));
  }

  /** Whatever choice the selector holds, the reservation gets that many
      hours and the form shows five dollars an hour. */
  lemma ChoiceRoundTrip(h: nat)
    requires h in DurationChoices
    ensures ParseNat(NatToString(h)).Some?
    ensures Hours(NatToString(h)) == h
    ensures DisplayedTotal(NatToString(h)) == 5 * h && 5 <= DisplayedTotal(NatToString(h)) <= 40
  {
    ParseNatToString(h);
  }

  /** The check that runs before anything is written. */
  predicate FormComplete(selectedPC: string, date: string, time: string) {
    selectedPC != "" && date != "" && time != ""
  }

  class ReservePage {
    const store: LocalStore
    const user: Option<PublicUser>
    var pcs: seq<PC>
    var selectedPC: string
    var duration: string
    var date: string
    var time: string

    ghost predicate Valid()
      reads this, store
    {
      store.Valid() && exists h :: h in DurationChoices && duration == NatToString(h)
    }

    /** The form opens with the PC given in the `pc` query parameter, if
        any, one hour, and no date or time. */
    constructor (store: LocalStore, user: Option<PublicUser>, prePC: Option<string>)
      requires store.Valid()
      ensures this.store == store && this.user == user && Valid()
      ensures pcs == [] && selectedPC == prePC.GetOr("") && duration == "1" && date == "" && time == ""
    {
      this.store := store;
      this.user := user;
      pcs := [];
      selectedPC := prePC.GetOr("");
      duration := "1";
      date := "";
      time := "";
      assert NatToString(1) == "1";
    }

    /** The mount effect: `getPCs()` (which seeds the store) keeps the free ones. */
    method LoadAvailable(clock: Clock, noise: nat -> int)
      requires Valid()
      modifies this, store
      ensures Valid()
      ensures store.Snapshot() == Seeded(old(store.Snapshot()), clock, noise)
      ensures pcs == FreePCs(store.pcs)
      ensures selectedPC == old(selectedPC) && duration == old(duration) && date == old(date) && time == old(time)
    {
      var all := store.GetPCs(clock, noise);
      pcs := FreePCs(all);
    }

    /** The duration selector. */
    method ChooseDuration(h: nat)
      requires Valid() && h in DurationChoices
      modifies this
      ensures Valid() && duration == NatToString(h)
      ensures pcs == old(pcs) && selectedPC == old(selectedPC) && date == old(date) && time == old(time)
    {
      duration := NatToString(h);
    }

    /** The PC selector and the date and time inputs. */
    method FillForm(pc: string, d: string, t: string)
      requires Valid()
      modifies this
      ensures Valid() && selectedPC == pc && date == d && time == t
      ensures pcs == old(pcs) && duration == old(duration)
    {
      selectedPC, date, time := pc, d, t;
    }

    /** `handleSubmit`: an incomplete form writes nothing; otherwise exactly
        one active reservation is appended for the current user. Nothing
        else is written: the PC keeps its status and no overlap with other
        bookings is looked for. */
    method HandleSubmit(freshId: string) returns (ok: bool)
      requires Valid()
      modifies store
      ensures Valid()
      ensures ok <==> FormComplete(selectedPC, date, time)
      ensures !ok ==> store.Snapshot() == old(store.Snapshot())
      ensures ok ==> ParseNat(duration).Some?
      ensures ok ==>
        store.Snapshot() == old(store.Snapshot()).(reservations := old(store.reservations) +
          [Reservation(freshId, IdOf(user), selectedPC, StartTime(date, time), Hours(duration), Activa)])
    {
      if !FormComplete(selectedPC, date, time) {
        return false;
      }
      var h :| h in DurationChoices && duration == NatToString(h);
      ChoiceRoundTrip(h);
      store.reservations := store.reservations +
        [Reservation(freshId, IdOf(user), selectedPC, StartTime(date, time), Hours(duration), Activa)];
      ok := true;
    }
  }
}
