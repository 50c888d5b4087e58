/** The problem-report form of src/pages/client/ClientReport.tsx. */
module ClientReport {
  import opened Wrappers
  import opened Records
  import opened Tables
  import opened Store
  import opened Auth

  /** The check before writing: subject and description are required, the
      PC number is not. */
  predicate ReportComplete(subject: string, description: string) {
    subject != "" && description != ""
  }

  /** The report a valid submission appends. */
  function NewReport(id: string, user: Option<PublicUser>, subject: string, pcNumber: string,
                     description: string, timestamp: string): (r: Report)
    ensures r.status == Pendiente && r.userId == IdOf(user) && r.userName == NameOf(user)
    ensures r.subject == subject && r.pcNumber == pcNumber && r.description == description
  {
    Report(id, IdOf(user), NameOf(user), subject, pcNumber, description, timestamp, Pendiente)
  }

  /** A freshly filed report is pending; once an admin resolves its id it
      is resolved, and every earlier report with another id is untouched. */
  lemma FiledThenResolved(reports: seq<Report>, r: Report)
    requires r.status == Pendiente
    ensures var after := WithReportResolved(reports + [r], r.id);
      && |after| == |reports| + 1
      && after[|reports|] == r.(status := Resuelto)
      && forall i :: 0 <= i < |reports| && reports[i].id != r.id ==> after[i] == reports[i]
  {
    var all := reports + [r];
    assert all[|reports|] == r;
    assert forall i :: 0 <= i < |reports| ==> all[i] == reports[i];
  }

  class ReportPage {
    const store: LocalStore
    const user: Option<PublicUser>
    var subject: string
    var pcNumber: string
    var description: string

    ghost predicate Valid()
      reads this, store
    {
      store.Valid()
    }

    constructor (store: LocalStore, user: Option<PublicUser>)
      requires store.Valid()
      ensures this.store == store && this.user == user && Valid()
      ensures subject == "" && pcNumber == "" && description == ""
    {
      this.store := store;
      this.user := user;
      subject, pcNumber, description := "", "", "";
    }

    /** The three inputs. */
    method FillForm(s: string, n: string, d: string)
      requires Valid()
      modifies this
      ensures Valid() && subject == s && pcNumber == n && description == d
    {
      subject, pcNumber, description := s, n, d;
    }

    /** `handleSubmit`: an incomplete form writes nothing and keeps the
        inputs; otherwise exactly one pending report is appended and the
        three inputs are cleared. */
    method HandleSubmit(freshId: string, timestamp: string) returns (ok: bool)
      requires Valid()
      modifies this, store
      ensures Valid()
      ensures ok <==> ReportComplete(old(subject), old(description))
      ensures !ok ==> store.Snapshot() == old(store.Snapshot())
      ensures !ok ==> subject == old(subject) && pcNumber == old(pcNumber) && description == old(description)
      ensures ok ==> subject == "" && pcNumber == "" && description == ""
      ensures ok ==> store.Snapshot() == old(store.Snapshot()).(reports := old(store.reports) +
        [NewReport(freshId, user, old(subject), old(pcNumber), old(description), timestamp)])
    {
      if !ReportComplete(subject, description) {
        return false;
      }
      store.reports := store.reports + [NewReport(freshId, user, subject, pcNumber, description, timestamp)];
      subject, pcNumber, description := "", "", "";
      ok := true;
    }
  }
}
