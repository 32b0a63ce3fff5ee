/** The ticket API (`GET`, `POST` and `PATCH` on /api/tickets) as pure
    functions from a session, an in-memory ticket table and the request's
    fields to a response and the table afterwards. The clock is the `now`
    parameter, in milliseconds. */
module TicketsRoute {
  import opened Wrappers
  import opened Domain
  import Text
  import Seqs

  // ---------------------------------------------------------------------
  // store and responses
  // ---------------------------------------------------------------------

  /** The ticket table; `nextId` is the auto-increment counter. */
  datatype Store = Store(tickets: seq<Ticket>, nextId: int)

  datatype Body = Failure(error: string) | Record(ticket: Ticket) | Records(tickets: seq<Ticket>)

  datatype Response = Response(status: int, body: Body)

  /** A handler's response together with the table it leaves behind. */
  datatype Handled = Handled(response: Response, store: Store)

  const Unauthorized: Response := Response(401, Failure("No autorizado"))

  const DescriptionRequired := "La descripci\U{00F3}n es requerida"
  const PriorityRequired := "La prioridad es requerida"
  const UserIdRequired := "El ID de usuario es requerido"
  const InvalidPriority := "Prioridad no v\U{00E1}lida. Debe ser una de: " + Text.Join(PriorityNames, ", ")
  const InvalidStatus := "Estado no v\U{00E1}lido. Debe ser uno de: " + Text.Join(StatusNames, ", ")
  const UpdateFailed := "Error al actualizar ticket"

  function BadRequest(message: string): Response {
    Response(400, Failure(message))
  }

  /** The table invariant the handlers keep: ids are unique and below the
      counter, and a resolved or rejected ticket has a closure date. */
  predicate Valid(store: Store) {
    && (forall i, j :: 0 <= i < j < |store.tickets| ==> store.tickets[i].id != store.tickets[j].id)
    && (forall i :: 0 <= i < |store.tickets| ==> store.tickets[i].id < store.nextId)
    && (forall i :: 0 <= i < |store.tickets| && IsClosing(store.tickets[i].estado) ==> store.tickets[i].fechaCierre.Some?)
  }

  // ---------------------------------------------------------------------
  // GET: filter and order
  // ---------------------------------------------------------------------

  /** Newest first: creation dates never increase along the sequence. */
  predicate NewestFirst(ts: seq<Ticket>) {
    forall i, j :: 0 <= i < j < |ts| ==> ts[i].fechaCreacion >= ts[j].fechaCreacion
  }

  /** `t` placed into the newest-first sequence `ts`, ahead of the first
      ticket that is not newer than it. */
  function Insert(t: Ticket, ts: seq<Ticket>): (r: seq<Ticket>)
    requires NewestFirst(ts)
    ensures NewestFirst(r)
    ensures multiset(r) == multiset(ts) + multiset{t}
    ensures |r| == |ts| + 1 && (r[0] == t || (|ts| > 0 && r[0] == ts[0]))
  {
    if ts == [] || ts[0].fechaCreacion <= t.fechaCreacion then
      ConsNewestFirst(t, ts);
      [t] + ts
    else
      var rest := Insert(t, ts[1..]);
      assert ts == [ts[0]] + ts[1..];
      ConsNewestFirst(ts[0], rest);
      [ts[0]] + rest
  }

  /** A ticket no older than the head of a newest-first sequence may go in front. */
  lemma ConsNewestFirst(x: Ticket, ts: seq<Ticket>)
    requires NewestFirst(ts)
    requires ts == [] || ts[0].fechaCreacion <= x.fechaCreacion
    ensures NewestFirst([x] + ts)
  {
    var r := [x] + ts;
    forall i, j | 0 <= i < j < |r| ensures r[i].fechaCreacion >= r[j].fechaCreacion {
      if i == 0 {
        assert r[j] == ts[j - 1];
        assert ts[0].fechaCreacion >= ts[j - 1].fechaCreacion;
      } else {
        assert r[i] == ts[i - 1] && r[j] == ts[j - 1];
      }
    }
  }

  /** The `orderBy: { fechaCreacion: 'desc' }` of every query: a
      permutation of `ts` that is newest first. The database leaves the
      order of equal dates open; this one is one of the orders it may use. */
  function SortNewestFirst(ts: seq<Ticket>): (r: seq<Ticket>)
    ensures NewestFirst(r)
    ensures multiset(r) == multiset(ts)
  {
    if ts == [] then []
    else
      assert ts == [ts[0]] + ts[1..];
      Insert(ts[0], SortNewestFirst(ts[1..]))
  }

  /** Which tickets a query selects: a `userId` parameter selects the
      tickets created by that user and wins over `employeeId`, which selects
      the tickets assigned to that employee; with neither, every ticket. */
  predicate Selected(t: Ticket, userId: Option<int>, employeeId: Option<int>) {
    match userId
    case Some(u) => t.idUsuario == u
    case None =>
      match employeeId
      case Some(e) => t.idEmpleado == Some(e)
      case None => true
  }

  /** The `where` clause of the query the parameters pick. */
  function Matching(ts: seq<Ticket>, userId: Option<int>, employeeId: Option<int>): (r: seq<Ticket>)
    ensures forall t :: multiset(r)[t] == if Selected(t, userId, employeeId) then multiset(ts)[t] else 0
  {
    if userId.Some? then Seqs.Filter(ts, (t: Ticket) => t.idUsuario == userId.value)
    else if employeeId.Some? then Seqs.Filter(ts, (t: Ticket) => t.idEmpleado == Some(employeeId.value))
    else ts
  }

  /** GET /api/tickets. `userId` and `employeeId` are the query
      parameters, `None` when absent or empty. */
  function List(session: Option<Session>, store: Store, userId: Option<int>, employeeId: Option<int>): (r: Response)
    ensures session.None? ==> r == Unauthorized
    ensures session.Some? ==> r.status == 200 && r.body.Records?
    ensures session.Some? ==> NewestFirst(r.body.tickets)
    ensures session.Some? ==> forall t ::
      multiset(r.body.tickets)[t] == if Selected(t, userId, employeeId) then multiset(store.tickets)[t] else 0
  {
    if session.None? then Unauthorized
    else Response(200, Records(SortNewestFirst(Matching(store.tickets, userId, employeeId))))
  }

  /** A listing holds exactly the stored tickets the parameters select. */
  lemma ListSelectsExactly(session: Session, store: Store, userId: Option<int>, employeeId: Option<int>, t: Ticket)
    ensures t in List(Some(session), store, userId, employeeId).body.tickets
        <==> t in store.tickets && Selected(t, userId, employeeId)
  {
    var r := List(Some(session), store, userId, employeeId).body.tickets;
    assert t in r <==> multiset(r)[t] > 0;
    assert t in store.tickets <==> multiset(store.tickets)[t] > 0;
  }

  // ---------------------------------------------------------------------
  // POST: validate and create
  // ---------------------------------------------------------------------

  /** The description check: `descripcion?.trim()` is falsy. */
  predicate DescriptionMissing(descripcion: Option<string>) {
    descripcion.None? || Text.Trim(descripcion.value) == ""
  }

  /** A JSON string field that is absent, null or empty. */
  predicate Falsy(s: Option<string>) {
    s.None? || s.value == ""
  }

  /** A JSON number field that is absent, null or zero. */
  predicate FalsyId(n: Option<int>) {
    n.None? || n.value == 0
  }

  /** The record a successful create stores. */
  predicate IsNewTicket(t: Ticket, store: Store, descripcion: string, prioridad: string, idUsuario: int, now: int) {
    && t.id == store.nextId
    && t.descripcion == Text.Trim(descripcion)
    && PriorityName(t.prioridad) == Text.Capitalise(prioridad)
    && t.estado == Pendiente
    && t.fechaCreacion == now
    && t.fechaCierre == None
    && t.idUsuario == idUsuario
    && t.idEmpleado == None
  }

  /** POST /api/tickets. The checks run in a fixed order and the first
      that fails decides the 400 message: description, then priority
      present, then user id, then the normalised priority word. */
  function Create(session: Option<Session>, store: Store, descripcion: Option<string>,
                  prioridad: Option<string>, idUsuario: Option<int>, now: int): (h: Handled)
    ensures session.None? ==> h == Handled(Unauthorized, store)
    ensures session.Some? && DescriptionMissing(descripcion) ==>
      h == Handled(BadRequest(DescriptionRequired), store)
    ensures session.Some? && !DescriptionMissing(descripcion) && Falsy(prioridad) ==>
      h == Handled(BadRequest(PriorityRequired), store)
    ensures session.Some? && !DescriptionMissing(descripcion) && !Falsy(prioridad) && FalsyId(idUsuario) ==>
      h == Handled(BadRequest(UserIdRequired), store)
    ensures session.Some? && !DescriptionMissing(descripcion) && !Falsy(prioridad) && !FalsyId(idUsuario)
            && Text.Capitalise(prioridad.value) !in PriorityNames ==>
      h == Handled(BadRequest(InvalidPriority), store)
    ensures h.response.status == 201 <==>
      && session.Some? && !DescriptionMissing(descripcion) && !Falsy(prioridad) && !FalsyId(idUsuario)
      && Text.Capitalise(prioridad.value) in PriorityNames
    ensures h.response.status != 201 ==> h.store == store && h.response.body.Failure?
    ensures h.response.status == 201 ==>
      && h.response.body.Record?
      && h.store == Store(store.tickets + [h.response.body.ticket], store.nextId + 1)
      && IsNewTicket(h.response.body.ticket, store, descripcion.value, prioridad.value, idUsuario.value, now)
  {
    if session.None? then Handled(Unauthorized, store)
    else if DescriptionMissing(descripcion) then Handled(BadRequest(DescriptionRequired), store)
    else if Falsy(prioridad) then Handled(BadRequest(PriorityRequired), store)
    else if FalsyId(idUsuario) then Handled(BadRequest(UserIdRequired), store)
    else
      var value := Text.Capitalise(prioridad.value);
      match ParsePriority(value)
      case None => Handled(BadRequest(InvalidPriority), store)
      case Some(p) =>
        var t := Ticket(store.nextId, Text.Trim(descripcion.value), p, Pendiente, now, None, idUsuario.value, None);
        Handled(Response(201, Record(t)), Store(store.tickets + [t], store.nextId + 1))
  }

  /** A successful create stores a priority from the closed set even
      though the request may spell it in any case: the stored word is the
      normalised request word, and that word is one of the four. */
  lemma CreateStoresCanonicalPriority(session: Option<Session>, store: Store, descripcion: Option<string>,
                                      prioridad: Option<string>, idUsuario: Option<int>, now: int)
    requires Create(session, store, descripcion, prioridad, idUsuario, now).response.status == 201
    ensures var t := Create(session, store, descripcion, prioridad, idUsuario, now).response.body.ticket;
      && PriorityName(t.prioridad) in PriorityNames
      && Text.Capitalise(PriorityName(t.prioridad)) == PriorityName(t.prioridad)
      && Text.Capitalise(prioridad.value) == PriorityName(t.prioridad)
  {
    var t := Create(session, store, descripcion, prioridad, idUsuario, now).response.body.ticket;
    Text.PriorityWordsNormal(PriorityName(t.prioridad));
  }

  /** Creating keeps the table invariant. */
  lemma CreatePreservesValid(session: Option<Session>, store: Store, descripcion: Option<string>,
                             prioridad: Option<string>, idUsuario: Option<int>, now: int)
    requires Valid(store)
    ensures Valid(Create(session, store, descripcion, prioridad, idUsuario, now).store)
  {
    var h := Create(session, store, descripcion, prioridad, idUsuario, now);
    if h.response.status == 201 {
      var t := h.response.body.ticket;
      assert t.id == store.nextId && t.estado == Pendiente;
      assert h.store.tickets == store.tickets + [t];
      assert forall i :: 0 <= i < |store.tickets| ==> h.store.tickets[i] == store.tickets[i];
    }
  }

  // ---------------------------------------------------------------------
  // PATCH: validate and update
  // ---------------------------------------------------------------------

  /** The fields a PATCH writes; a missing field leaves the column as it is. */
  datatype UpdateData = UpdateData(idEmpleado: Presence<Option<int>>, estado: Option<Status>, fechaCierre: Option<int>)

  /** The status check: a non-empty `estado` outside the accepted words. */
  predicate StatusRejected(estado: Option<string>) {
    !Falsy(estado) && estado.value !in StatusNames
  }

  /** The update object: `idEmpleado` whenever it is not `undefined` (so
      `null` unassigns), `estado` whenever it is a non-empty string, and a
      closure date of `now` when `estado` is Resuelto or Rechazado. */
  function BuildUpdate(idEmpleado: Presence<Option<int>>, estado: Option<string>, now: int): (d: UpdateData)
    requires !StatusRejected(estado)
    ensures d.idEmpleado == idEmpleado
    ensures d.estado.Some? <==> !Falsy(estado)
    ensures d.estado.Some? ==> StatusName(d.estado.value) == estado.value
    ensures d.fechaCierre.Some? <==> d.estado.Some? && IsClosing(d.estado.value)
    ensures d.fechaCierre.Some? ==> d.fechaCierre.value == now
  {
    UpdateData(
      idEmpleado,
      if Falsy(estado) then None else ParseStatus(estado.value),
      if estado == Some(StatusName(Resuelto)) || estado == Some(StatusName(Rechazado)) then Some(now) else None)
  }

  /** The row after the update: written fields replaced, the rest kept. */
  function ApplyUpdate(t: Ticket, d: UpdateData): Ticket {
    t.(idEmpleado := if d.idEmpleado.Present? then d.idEmpleado.value else t.idEmpleado,
       estado := d.estado.GetOr(t.estado),
       fechaCierre := if d.fechaCierre.Some? then d.fechaCierre else t.fechaCierre)
  }

  /** The position of the first ticket with the given id. */
  function FindTicket(ts: seq<Ticket>, id: int): (r: Option<nat>)
    ensures r.Some? ==> r.value < |ts| && ts[r.value].id == id
    ensures r.Some? ==> forall k :: 0 <= k < r.value ==> ts[k].id != id
    ensures r.None? ==> forall k :: 0 <= k < |ts| ==> ts[k].id != id
  {
    if ts == [] then None
    else if ts[0].id == id then Some(0)
    else
      match FindTicket(ts[1..], id)
      case None => None
      case Some(k) => Some(k + 1)
  }

  /** PATCH /api/tickets. No transition rule is enforced: any accepted
      status may follow any other. A missing id makes the update throw,
      which the handler reports as a 500. */
  function Update(session: Option<Session>, store: Store, id: int, idEmpleado: Presence<Option<int>>,
                  estado: Option<string>, now: int): (h: Handled)
    ensures session.None? ==> h == Handled(Unauthorized, store)
    ensures session.Some? && StatusRejected(estado) ==> h == Handled(BadRequest(InvalidStatus), store)
    ensures h.response.status == 200 <==>
      session.Some? && !StatusRejected(estado) && exists k :: 0 <= k < |store.tickets| && store.tickets[k].id == id
    ensures session.Some? && !StatusRejected(estado) && (forall k :: 0 <= k < |store.tickets| ==> store.tickets[k].id != id) ==>
      h == Handled(Response(500, Failure(UpdateFailed)), store)
    ensures h.response.status != 200 ==> h.store == store && h.response.body.Failure?
    ensures h.response.status == 200 ==>
      && h.response.body.Record?
      && h.store.nextId == store.nextId
      && exists k :: 0 <= k < |store.tickets| && store.tickets[k].id == id
           && h.store.tickets == store.tickets[k := h.response.body.ticket]
           && h.response.body.ticket == ApplyUpdate(store.tickets[k], BuildUpdate(idEmpleado, estado, now))
  {
    if session.None? then Handled(Unauthorized, store)
    else if StatusRejected(estado) then Handled(BadRequest(InvalidStatus), store)
    else
      var data := BuildUpdate(idEmpleado, estado, now);
      match FindTicket(store.tickets, id)
      case None => Handled(Response(500, Failure(UpdateFailed)), store)
      case Some(k) =>
        var updated := ApplyUpdate(store.tickets[k], data);
        Handled(Response(200, Record(updated)), store.(tickets := store.tickets[k := updated]))
  }

  /** What a successful update does to the ticket with the given id, and
      that no other ticket changes. */
  lemma UpdateEffect(session: Session, store: Store, k: nat, idEmpleado: Presence<Option<int>>,
                     estado: Option<string>, now: int)
    requires Valid(store) && k < |store.tickets|
    requires !StatusRejected(estado)
    ensures var h := Update(Some(session), store, store.tickets[k].id, idEmpleado, estado, now);
      var t, t' := store.tickets[k], h.store.tickets[k];
      && h.response == Response(200, Record(t'))
      && |h.store.tickets| == |store.tickets|
      && (forall j :: 0 <= j < |store.tickets| && j != k ==> h.store.tickets[j] == store.tickets[j])
      && t'.id == t.id && t'.descripcion == t.descripcion && t'.prioridad == t.prioridad
      && t'.fechaCreacion == t.fechaCreacion && t'.idUsuario == t.idUsuario
      && t'.idEmpleado == (if idEmpleado.Present? then idEmpleado.value else t.idEmpleado)
      && (Falsy(estado) ==> t'.estado == t.estado && t'.fechaCierre == t.fechaCierre)
      && (!Falsy(estado) ==> StatusName(t'.estado) == estado.value)
      && (!Falsy(estado) && IsClosing(t'.estado) ==> t'.fechaCierre == Some(now))
      && (!Falsy(estado) && !IsClosing(t'.estado) ==> t'.fechaCierre == t.fechaCierre)
  {
    var id := store.tickets[k].id;
    var f := FindTicket(store.tickets, id);
    assert f == Some(k);
  }

  /** Every status may follow every status, Resuelto and Rechazado
      included: the handler accepts the move and records the new status. */
  lemma AnyTransitionAccepted(session: Session, store: Store, k: nat, target: Status, now: int)
    requires Valid(store) && k < |store.tickets|
    ensures var h := Update(Some(session), store, store.tickets[k].id, Absent, Some(StatusName(target)), now);
      h.response.status == 200 && h.store.tickets[k].estado == target
  {
    NamesRoundTrip(Usuario, Baja, target);
    UpdateEffect(session, store, k, Absent, Some(StatusName(target)), now);
  }

  /** An update never clears a closure date, so reopening a resolved
      ticket leaves it with a status that is not closing and a closure date. */
  lemma UpdateNeverClearsClosure(session: Option<Session>, store: Store, id: int,
                                 idEmpleado: Presence<Option<int>>, estado: Option<string>, now: int, k: nat)
    requires k < |store.tickets| && store.tickets[k].fechaCierre.Some?
    ensures var h := Update(session, store, id, idEmpleado, estado, now);
      k < |h.store.tickets| && h.store.tickets[k].fechaCierre.Some?
  {
  }

  /** Updating keeps the table invariant. */
  lemma UpdatePreservesValid(session: Option<Session>, store: Store, id: int,
                             idEmpleado: Presence<Option<int>>, estado: Option<string>, now: int)
    requires Valid(store)
    ensures Valid(Update(session, store, id, idEmpleado, estado, now).store)
  {
    var h := Update(session, store, id, idEmpleado, estado, now);
    if h.response.status == 200 {
      var k :| 0 <= k < |store.tickets| && store.tickets[k].id == id
           && h.store.tickets == store.tickets[k := h.response.body.ticket]
           && h.response.body.ticket == ApplyUpdate(store.tickets[k], BuildUpdate(idEmpleado, estado, now));
      assert h.store.tickets[k].id == store.tickets[k].id;
    }
  }
}
