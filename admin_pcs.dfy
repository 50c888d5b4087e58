/** The PC management page of src/pages/admin/AdminPCManagement.tsx: the
    per-status counts, the status editor and its open/closed toggle. */
module AdminPCs {
  import opened Wrappers
  import opened Records
  import opened Seqs
  import opened Tables
  import opened Store

  datatype StatusCounts = StatusCounts(libre: nat, ocupada: nat, mantenimiento: nat)

  function CountOf(pcs: seq<PC>, s: PCStatus): nat {
    |Filter(pcs, StatusIs(s))|
  }

  /** The three counts split the PCs: every PC has exactly one status. */
  lemma {:induction false} StatusPartition(pcs: seq<PC>)
    ensures CountOf(pcs, Libre) + CountOf(pcs, Ocupada) + CountOf(pcs, Mantenimiento) == |pcs|
  {
    if pcs != [] {
      var init := pcs[..|pcs| - 1];
      var x := pcs[|pcs| - 1];
      assert pcs == init + [x];
      StatusPartition(init);
      FilterSnoc(init, x, StatusIs(Libre));
      FilterSnoc(init, x, StatusIs(Ocupada));
      FilterSnoc(init, x, StatusIs(Mantenimiento));
    }
  }

  /** `statusCounts`: how many PCs are free, occupied and under
      maintenance; together they count every PC once. */
  function CountStatuses(pcs: seq<PC>): (c: StatusCounts)
    ensures c.libre + c.ocupada + c.mantenimiento == |pcs|
    ensures forall s :: CountOf(pcs, s) == match s {
      case Libre => c.libre
      case Ocupada => c.ocupada
      case Mantenimiento => c.mantenimiento
    }
  {
    StatusPartition(pcs);
    StatusCounts(CountOf(pcs, Libre), CountOf(pcs, Ocupada), CountOf(pcs, Mantenimiento))
  }

  /** On the fixture the page shows 16 free, 3 occupied and 1 in maintenance. */
  lemma CountsOfSeed()
    ensures CountStatuses(Seed.SeedPCs()) == StatusCounts(16, 3, 1)
  {
    Seed.SeedStatusCounts();
  }

  /** Giving one PC (ids being unique) a new status moves it from its old
      count to its new one and leaves the third count alone. */
  lemma EditMovesOne(pcs: seq<PC>, k: nat, status: PCStatus, s: PCStatus)
    requires UniquePCs(pcs) && k < |pcs|
    ensures CountOf(WithPCStatus(pcs, pcs[k].id, status), s) + (if pcs[k].status == s then 1 else 0)
         == CountOf(pcs, s) + (if status == s then 1 else 0)
  {
    var t := WithPCStatus(pcs, pcs[k].id, status);
    forall i | 0 <= i < |pcs| && i != k
      ensures pcs[i] == t[i]
    {
      assert pcs[i].id != pcs[k].id;
    }
    FilterCountAt(pcs, t, k, StatusIs(s));
  }

  /** The "Editar Estado" button: opens the editor on this PC, or closes it
      when it is already open on this PC. */
  function Toggled(editingId: Option<string>, pcId: string): (r: Option<string>)
    ensures r == None <==> editingId == Some(pcId)
    ensures r != None ==> r == Some(pcId)
  {
    if editingId == Some(pcId) then None else Some(pcId)
  }

  /** Two presses on the same PC's button end with the editor open on that
      PC exactly when it started there, and closed otherwise. */
  lemma ToggleTwice(editingId: Option<string>, pcId: string)
    ensures Toggled(Toggled(editingId, pcId), pcId) == (if editingId == Some(pcId) then Some(pcId) else None)
  {
  }

  class PCManagementPage {
    const store: LocalStore
    var pcs: seq<PC>
    var editingId: Option<string>

    ghost predicate Valid()
      reads this, store
    {
      store.Valid()
    }

    constructor (store: LocalStore)
      requires store.Valid()
      ensures this.store == store && Valid() && pcs == [] && editingId == None
    {
      this.store := store;
      pcs := [];
      editingId := None;
    }

    /** The mount effect: `getPCs()`, which seeds the store if needed. */
    method Load(clock: Clock, noise: nat -> int)
      requires Valid()
      modifies this, store
      ensures Valid()
      ensures store.Snapshot() == Seeded(old(store.Snapshot()), clock, noise)
      ensures pcs == store.pcs && editingId == old(editingId)
    {
      pcs := store.GetPCs(clock, noise);
    }

    method ToggleEdit(pcId: string)
      requires Valid()
      modifies this
      ensures Valid() && pcs == old(pcs) && editingId == Toggled(old(editingId), pcId)
    {
      editingId := Toggled(editingId, pcId);
    }

    /** `handleEditStatus`: the same replacement is applied to the store and
        to the page's list, and the editor closes. A page that showed the
        store keeps showing it. */
    method HandleEditStatus(clock: Clock, noise: nat -> int, pcId: string, newStatus: PCStatus)
      requires Valid()
      modifies this, store
      ensures Valid()
      ensures store.Snapshot() ==
        var seeded := Seeded(old(store.Snapshot()), clock, noise);
        seeded.(pcs := WithPCStatus(seeded.pcs, pcId, newStatus))
      ensures pcs == WithPCStatus(old(pcs), pcId, newStatus)
      ensures editingId == None
      ensures old(pcs) == old(store.pcs) && old(store.initialized) ==> pcs == store.pcs
    {
      store.UpdatePCStatus(clock, noise, pcId, newStatus);
      pcs := WithPCStatus(pcs, pcId, newStatus);
      editingId := None;
    }
  }
}
