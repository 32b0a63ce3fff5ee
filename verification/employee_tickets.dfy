/** The employee's ticket page, as far as it meets the API: the status
    options of its dropdown. */
module EmployeeTickets {
  import opened Wrappers
  import opened Domain
  import TicketsRoute

  /** The dropdown's option values. */
  const StatusOptions: seq<string> := ["Pendiente", "En Proceso", "Resuelto", "Rechazado"]

  /** Choosing "En Proceso" is refused with a 400 (the API spells it
      En_Proceso); each of the other three options is accepted. */
  lemma InProgressOptionRejected(session: Session, store: TicketsRoute.Store, id: int, now: int, k: nat)
    requires k < |StatusOptions|
    ensures var h := TicketsRoute.Update(Some(session), store, id, Absent, Some(StatusOptions[k]), now);
      && (StatusOptions[k] == "En Proceso" ==> h == TicketsRoute.Handled(TicketsRoute.BadRequest(TicketsRoute.InvalidStatus), store))
      && (StatusOptions[k] != "En Proceso" ==> h.response.status != 400)
  {
    assert "En Proceso" !in StatusNames;
  }

  /** The dropdown as evidently intended: the API's own status words. */
  const IntendedStatusOptions: seq<string> := StatusNames

  /** With the API's spellings every option is accepted and the ticket
      takes the status the option names. */
  lemma IntendedOptionsAccepted(session: Session, store: TicketsRoute.Store, j: nat, k: nat, now: int)
    requires TicketsRoute.Valid(store) && j < |store.tickets| && k < |IntendedStatusOptions|
    ensures var h := TicketsRoute.Update(Some(session), store, store.tickets[j].id, Absent, Some(IntendedStatusOptions[k]), now);
      && h.response.status == 200
      && StatusName(h.store.tickets[j].estado) == IntendedStatusOptions[k]
  {
    var o := IntendedStatusOptions[k];
    assert o in StatusNames;
    TicketsRoute.UpdateEffect(session, store, j, Absent, Some(o), now);
  }
}
