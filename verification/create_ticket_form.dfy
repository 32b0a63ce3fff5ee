/** The ticket creation form: its checks, the body it posts, its priority
    options, and how those meet the API's own checks. */
module CreateTicketForm {
  import opened Wrappers
  import opened Domain
  import Text
  import TicketsRoute

  /** The posted body; `idUsuario` is `Number(session.user.id)`, `None`
      standing for `NaN`, which JSON sends as `null`. */
  datatype TicketPayload = TicketPayload(descripcion: string, prioridad: string, idUsuario: Option<int>)

  datatype FormOutcome = Invalid(error: string) | Send(payload: TicketPayload)

  const SignInRequired := "Debe iniciar sesi\U{00F3}n para crear un ticket"
  const DescriptionRequired := "La descripci\U{00F3}n es requerida"
  const PriorityRequired := "La prioridad es requerida"

  /** The select's option values; the first is the placeholder. */
  const PriorityOptions: seq<string> := ["", "Baja", "Media", "Alta", "Cr\U{00ED}tica"]

  /** `handleSubmit`: a session with a user id first, then a description
      that is not blank, then a priority; the body carries the trimmed
      description. `descripcion` and `prioridad` are the form fields,
      `None` when missing. */
  function Submit(session: Option<Session>, descripcion: Option<string>, prioridad: Option<string>): (r: FormOutcome)
    ensures session.None? || session.value.id == "" ==> r == Invalid(SignInRequired)
    ensures session.Some? && session.value.id != "" && descripcion.Some? && Text.Trim(descripcion.value) != ""
            && (prioridad.None? || prioridad.value == "") ==>
      r == Invalid(PriorityRequired)
    ensures r.Send? <==>
      && session.Some? && session.value.id != ""
      && descripcion.Some? && Text.Trim(descripcion.value) != ""
      && prioridad.Some? && prioridad.value != ""
    ensures r.Send? ==>
      && r.payload.descripcion == Text.Trim(descripcion.value)
      && r.payload.prioridad == prioridad.value
      && r.payload.idUsuario == Text.NumberOf(session.value.id)
  {
    if session.None? || session.value.id == "" then Invalid(SignInRequired)
    else
      var d := if descripcion.Some? then Some(Text.Trim(descripcion.value)) else None;
      if d.None? || d.value == "" then Invalid(DescriptionRequired)
      else if prioridad.None? || prioridad.value == "" then Invalid(PriorityRequired)
      else Send(TicketPayload(d.value, prioridad.value, Text.NumberOf(session.value.id)))
  }

  /** A blank description is reported before a missing priority. */
  lemma DescriptionCheckedBeforePriority(session: Session, descripcion: string, prioridad: Option<string>)
    requires session.id != "" && Text.IsBlank(descripcion)
    ensures Submit(Some(session), Some(descripcion), prioridad) == Invalid(DescriptionRequired)
  {
  }

  /** Every description the form sends passes the API's description check,
      and the API stores it unchanged. */
  lemma SentDescriptionPassesServer(session: Option<Session>, descripcion: Option<string>, prioridad: Option<string>)
    requires Submit(session, descripcion, prioridad).Send?
    ensures var d := Submit(session, descripcion, prioridad).payload.descripcion;
      !TicketsRoute.DescriptionMissing(Some(d)) && Text.Trim(d) == d
  {
    Text.TrimIdempotent(descripcion.value);
  }

  /** Every real option is already in normal form and is one the API accepts. */
  lemma PriorityOptionsAccepted(k: nat)
    requires 0 < k < |PriorityOptions|
    ensures Text.Capitalise(PriorityOptions[k]) == PriorityOptions[k]
    ensures PriorityOptions[k] in PriorityNames && PriorityOptions[k] != ""
  {
    Text.PriorityWordsNormal(PriorityOptions[k]);
  }

  /** End to end: a signed-in user whose id claim renders a positive id,
      posting a non-blank description with one of the offered priorities,
      gets a 201 and a stored ticket carrying exactly the text and the
      priority the form sent. */
  lemma FormSubmissionCreatesTicket(session: Session, uid: nat, descripcion: string, k: nat,
                                    store: TicketsRoute.Store, now: int)
    requires session.id == Text.NatToString(uid) && uid > 0
    requires !Text.IsBlank(descripcion)
    requires 0 < k < |PriorityOptions|
    ensures var r := Submit(Some(session), Some(descripcion), Some(PriorityOptions[k]));
      && r.Send?
      && var h := TicketsRoute.Create(Some(session), store, Some(r.payload.descripcion),
                                      Some(r.payload.prioridad), r.payload.idUsuario, now);
      && h.response.status == 201
      && h.response.body.ticket.descripcion == r.payload.descripcion
      && PriorityName(h.response.body.ticket.prioridad) == PriorityOptions[k]
      && h.response.body.ticket.idUsuario == uid
  {
    var o := PriorityOptions[k];
    var r := Submit(Some(session), Some(descripcion), Some(o));
    Text.NumberOfRendered(uid);
    PriorityOptionsAccepted(k);
    assert |session.id| >= 1;
    assert Text.Trim(descripcion) != "";
    assert r.Send?;
    var p := r.payload;
    assert p.idUsuario == Some(uid);
    SentDescriptionPassesServer(Some(session), Some(descripcion), Some(o));
    assert p.prioridad == o;
    var h := TicketsRoute.Create(Some(session), store, Some(p.descripcion), Some(p.prioridad), p.idUsuario, now);
    assert !TicketsRoute.FalsyId(p.idUsuario);
    assert h.response.status == 201;
    assert TicketsRoute.IsNewTicket(h.response.body.ticket, store, p.descripcion, o, uid, now);
  }

  /** The form only tests that the id claim is non-empty: a claim of "0"
      is sent, and the API refuses it as a missing user id. */
  lemma ZeroIdPassesFormFailsServer(descripcion: string, k: nat, store: TicketsRoute.Store, now: int)
    requires !Text.IsBlank(descripcion)
    requires 0 < k < |PriorityOptions|
    ensures var session := Session("0", RoleName(Usuario));
      var r := Submit(Some(session), Some(descripcion), Some(PriorityOptions[k]));
      && r.Send?
      && TicketsRoute.Create(Some(session), store, Some(r.payload.descripcion), Some(r.payload.prioridad),
                             r.payload.idUsuario, now)
         == TicketsRoute.Handled(TicketsRoute.BadRequest(TicketsRoute.UserIdRequired), store)
  {
    var session := Session("0", RoleName(Usuario));
    var o := PriorityOptions[k];
    var r := Submit(Some(session), Some(descripcion), Some(o));
    Text.NumberOfRendered(0);
    assert Text.NatToString(0) == "0";
    PriorityOptionsAccepted(k);
    assert Text.Trim(descripcion) != "";
    assert r.Send?;
    var p := r.payload;
    assert p.idUsuario == Some(0);
    SentDescriptionPassesServer(Some(session), Some(descripcion), Some(o));
    assert !TicketsRoute.Falsy(Some(p.prioridad));
    assert TicketsRoute.FalsyId(p.idUsuario);
  }
}
