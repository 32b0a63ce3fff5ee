/** The administrator's ticket page: the SLA countdown shown beside open
    urgent tickets, the employee dropdown and the local list refresh after
    an assignment. Times are integer milliseconds; `now` is a parameter. */
module AdminTickets {
  import opened Wrappers
  import opened Domain
  import Text
  import Seqs
  import TicketsRoute

  // ---------------------------------------------------------------------
  // SLA countdown
  // ---------------------------------------------------------------------

  const MsPerMinute: int := 60000
  const MsPerHour: int := 60 * MsPerMinute

  /** The hour budget per priority word (`tiemposLimite`); a word outside
      the table has none. */
  function SlaBudgetHours(prioridad: string): (r: Option<nat>)
    ensures r.Some? <==> ParsePriority(prioridad).Some?
    ensures prioridad == PriorityName(Critica) ==> r == Some(1)
    ensures prioridad == PriorityName(Alta) ==> r == Some(3)
    ensures prioridad == PriorityName(Media) ==> r == Some(12)
    ensures prioridad == PriorityName(Baja) ==> r == Some(24)
  {
    if prioridad == "Cr\U{00ED}tica" then Some(1)
    else if prioridad == "Alta" then Some(3)
    else if prioridad == "Media" then Some(12)
    else if prioridad == "Baja" then Some(24)
    else None
  }

  /** What the countdown shows: breached, whole hours and minutes left, or
      the `NaN` reading a priority outside the table produces. */
  datatype SlaReading = Vencido | Restante(hours: nat, minutes: nat) | SinPlazo

  /** Milliseconds left of a budget of `budgetHours` for a ticket created
      at `fechaCreacion`. */
  function RemainingMs(fechaCreacion: int, budgetHours: nat, now: int): int {
    budgetHours * MsPerHour - (now - fechaCreacion)
  }

  /** `calcularTiempoRestanteSLA`: breached when nothing is left (the
      boundary counts as breached), otherwise the remaining time in hours
      rounded down and the rest of the hour in minutes rounded down. */
  function TiempoRestanteSla(fechaCreacion: int, prioridad: string, now: int): (r: SlaReading)
    ensures r.SinPlazo? <==> SlaBudgetHours(prioridad).None?
    ensures SlaBudgetHours(prioridad).Some? ==>
      (r.Vencido? <==> RemainingMs(fechaCreacion, SlaBudgetHours(prioridad).value, now) <= 0)
    ensures r.Restante? ==>
      var rem := RemainingMs(fechaCreacion, SlaBudgetHours(prioridad).value, now);
      && r.minutes < 60
      && r.hours * MsPerHour + r.minutes * MsPerMinute <= rem < r.hours * MsPerHour + (r.minutes + 1) * MsPerMinute
    ensures r.Restante? && fechaCreacion <= now ==> r.hours <= SlaBudgetHours(prioridad).value
    ensures r.Restante? && fechaCreacion < now ==> r.hours < SlaBudgetHours(prioridad).value
  {
    match SlaBudgetHours(prioridad)
    case None => SinPlazo
    case Some(budget) =>
      var rem := RemainingMs(fechaCreacion, budget, now);
      if rem <= 0 then Vencido
      else
        var hours := rem / MsPerHour;
        var minutes := (rem % MsPerHour) / MsPerMinute;
        assert hours * MsPerHour + minutes * MsPerMinute <= rem < hours * MsPerHour + (minutes + 1) * MsPerMinute by {
          SplitHoursMinutes(rem);
        }
        assert fechaCreacion <= now ==> hours <= budget by {
          if fechaCreacion <= now { DivBound(rem, budget); }
        }
        assert fechaCreacion < now ==> hours < budget by {
          if fechaCreacion < now { DivBound(rem + 1, budget); }
        }
        Restante(hours, minutes)
  }

  /** Whole hours then whole minutes of the rest bracket the time left
      to within one minute. */
  lemma SplitHoursMinutes(rem: int)
    requires rem > 0
    ensures var h, m := rem / MsPerHour, (rem % MsPerHour) / MsPerMinute;
      m < 60 && h * MsPerHour + m * MsPerMinute <= rem < h * MsPerHour + (m + 1) * MsPerMinute
  {
    var h, x := rem / MsPerHour, rem % MsPerHour;
    var m, y := x / MsPerMinute, x % MsPerMinute;
    assert rem == h * MsPerHour + x;
    assert x == m * MsPerMinute + y;
  }

  /** A positive time of at most `budget` hours is fewer than `budget`
      whole hours plus one, and `rem - 1 < budget` hours gives fewer than
      `budget` whole hours. */
  lemma DivBound(rem: int, budget: nat)
    requires 0 < rem <= budget * MsPerHour
    ensures (rem - 1) / MsPerHour < budget
    ensures rem / MsPerHour <= budget
  {
    var q, q' := rem / MsPerHour, (rem - 1) / MsPerHour;
    assert q * MsPerHour <= rem;
    assert q' * MsPerHour <= rem - 1;
  }

  /** How the page prints a reading. */
  function SlaText(r: SlaReading): string {
    match r
    case Vencido => "SLA vencido"
    case Restante(h, m) => Text.NatToString(h) + "h " + Text.NatToString(m) + "m restantes"
    case SinPlazo => "NaNh NaNm restantes"
  }

  /** The badge is red exactly when the countdown is breached: the page
      tests the printed text against "SLA vencido", and no other reading
      prints that text. */
  lemma BadgeRedIffBreached(r: SlaReading)
    ensures SlaText(r) == "SLA vencido" <==> r.Vencido?
  {
    var text := SlaText(r);
    if !r.Vencido? {
      assert text[|text| - 1] == 's';
      assert "SLA vencido"[|"SLA vencido"| - 1] == 'o';
    }
  }

  /** The reading as a number of whole minutes left. */
  function MinutesShown(r: SlaReading): nat
    requires r.Restante?
  {
    r.hours * 60 + r.minutes
  }

  /** As time passes the countdown never goes up, and once breached a
      ticket stays breached. */
  lemma SlaMonotone(fechaCreacion: int, prioridad: string, now1: int, now2: int)
    requires now1 <= now2
    ensures var r1, r2 := TiempoRestanteSla(fechaCreacion, prioridad, now1), TiempoRestanteSla(fechaCreacion, prioridad, now2);
      && (r1.Vencido? ==> r2.Vencido?)
      && (r2.Restante? ==> r1.Restante? && MinutesShown(r2) <= MinutesShown(r1))
  {
    var r1, r2 := TiempoRestanteSla(fechaCreacion, prioridad, now1), TiempoRestanteSla(fechaCreacion, prioridad, now2);
    if r2.Restante? {
      var b := SlaBudgetHours(prioridad).value;
      var rem1, rem2 := RemainingMs(fechaCreacion, b, now1), RemainingMs(fechaCreacion, b, now2);
      assert rem2 <= rem1;
      assert r2.hours * MsPerHour + r2.minutes * MsPerMinute == MinutesShown(r2) * MsPerMinute;
      assert r1.hours * MsPerHour + (r1.minutes + 1) * MsPerMinute == (MinutesShown(r1) + 1) * MsPerMinute;
    }
  }

  /** The column shows a countdown only for open tickets of priority
      Crítica or Alta. */
  predicate ShowsSla(t: Ticket) {
    var p := PriorityName(t.prioridad);
    t.fechaCierre.None? && (p == "Cr\U{00ED}tica" || p == "Alta")
  }

  /** Whenever the countdown is shown its priority is in the table, so it
      never shows the `NaN` reading, and the budget is at most three hours. */
  lemma ShownSlaIsDefined(t: Ticket, now: int)
    requires ShowsSla(t)
    ensures SlaBudgetHours(PriorityName(t.prioridad)).Some?
    ensures SlaBudgetHours(PriorityName(t.prioridad)).value <= 3
    ensures !TiempoRestanteSla(t.fechaCreacion, PriorityName(t.prioridad), now).SinPlazo?
  {
  }

  // ---------------------------------------------------------------------
  // employees and assignment
  // ---------------------------------------------------------------------

  /** The users the assignment dropdown offers: those whose role is Empleado. */
  function Employees(users: seq<UserRow>): (r: seq<UserRow>)
    ensures forall u :: u in r <==> u in users && u.rol == RoleName(Empleado)
    ensures forall u :: multiset(r)[u] == if u.rol == RoleName(Empleado) then multiset(users)[u] else 0
  {
    Seqs.Filter(users, (u: UserRow) => u.rol == "Empleado")
  }

  /** `tickets.map(...)` after an assignment: the entry with the
      assigned id becomes the server's answer, every other entry stays. */
  function ReplaceTicket(ts: seq<Ticket>, ticketId: int, updated: Ticket): (r: seq<Ticket>)
    ensures |r| == |ts|
    ensures forall k :: 0 <= k < |ts| && ts[k].id != ticketId ==> r[k] == ts[k]
    ensures forall k :: 0 <= k < |ts| && ts[k].id == ticketId ==> r[k] == updated
  {
    if ts == [] then []
    else [if ts[0].id == ticketId then updated else ts[0]] + ReplaceTicket(ts[1..], ticketId, updated)
  }

  /** After an assignment the page's list agrees with a fresh listing:
      if the list was the full newest-first listing of a valid table and
      the server answered the assignment with a ticket, replacing that
      entry gives the same tickets as the table after the update, still
      newest first. */
  lemma AssignmentKeepsListInSync(session: Session, store: TicketsRoute.Store, ticketId: int, empleadoId: Option<int>, now: int)
    requires TicketsRoute.Valid(store)
    ensures var shown := TicketsRoute.List(Some(session), store, None, None).body.tickets;
      var h := TicketsRoute.Update(Some(session), store, ticketId, Present(empleadoId), None, now);
      h.response.status == 200 ==>
        var local := ReplaceTicket(shown, ticketId, h.response.body.ticket);
        && multiset(local) == multiset(h.store.tickets)
        && TicketsRoute.NewestFirst(local)
  {
    var shown := TicketsRoute.List(Some(session), store, None, None).body.tickets;
    var h := TicketsRoute.Update(Some(session), store, ticketId, Present(empleadoId), None, now);
    if h.response.status == 200 {
      var t' := h.response.body.ticket;
      var k :| 0 <= k < |store.tickets| && store.tickets[k].id == ticketId
           && h.store.tickets == store.tickets[k := t']
           && t' == TicketsRoute.ApplyUpdate(store.tickets[k], TicketsRoute.BuildUpdate(Present(empleadoId), None, now));
      assert multiset(shown) == multiset(store.tickets);
      ReplaceOneOccurrence(shown, store.tickets, k, t');
    }
  }

  /** Replacing the only entry with a given id in a permutation of a table
      with unique ids is the same as replacing it in the table. */
  lemma ReplaceOneOccurrence(shown: seq<Ticket>, table: seq<Ticket>, k: nat, t': Ticket)
    requires k < |table|
    requires forall i, j :: 0 <= i < j < |table| ==> table[i].id != table[j].id
    requires multiset(shown) == multiset(table)
    requires t'.fechaCreacion == table[k].fechaCreacion
    ensures multiset(ReplaceTicket(shown, table[k].id, t')) == multiset(table[k := t'])
    ensures TicketsRoute.NewestFirst(shown) ==> TicketsRoute.NewestFirst(ReplaceTicket(shown, table[k].id, t'))
  {
    var id, o := table[k].id, table[k];
    OccursOnce(table, k);
    assert o in multiset(shown);
    var p :| 0 <= p < |shown| && shown[p] == o;
    OnlyPosition(shown, p);
    forall q | 0 <= q < |shown| && q != p
      ensures shown[q].id != id
    {
      assert shown[q] in multiset(table);
      var j :| 0 <= j < |table| && table[j] == shown[q];
      assert j != k;
    }
    ReplaceAt(shown, id, p, t');
    MultisetUpdate(shown, p, t');
    MultisetUpdate(table, k, t');
    SameDateKeepsOrder(shown, p, t');
  }

  /** Swapping an entry for one with the same creation date keeps the order. */
  lemma SameDateKeepsOrder(ts: seq<Ticket>, p: nat, t': Ticket)
    requires p < |ts| && t'.fechaCreacion == ts[p].fechaCreacion
    ensures TicketsRoute.NewestFirst(ts) ==> TicketsRoute.NewestFirst(ts[p := t'])
  {
    var r := ts[p := t'];
    assert forall i :: 0 <= i < |r| ==> r[i].fechaCreacion == ts[i].fechaCreacion;
  }

  /** In a table with unique ids each ticket occurs once. */
  lemma OccursOnce(table: seq<Ticket>, k: nat)
    requires k < |table|
    requires forall i, j :: 0 <= i < j < |table| ==> table[i].id != table[j].id
    ensures multiset(table)[table[k]] == 1
  {
    var o := table[k];
    var before, after := table[..k], table[k + 1..];
    assert table == before + [o] + after;
    assert forall j :: 0 <= j < |before| ==> before[j].id != o.id;
    assert forall j :: 0 <= j < |after| ==> after[j] == table[k + 1 + j];
    assert o !in before;
    assert o !in after;
  }

  /** When only position `p` carries the id, replacing by id is replacing at `p`. */
  lemma ReplaceAt(ts: seq<Ticket>, id: int, p: nat, t': Ticket)
    requires p < |ts| && ts[p].id == id
    requires forall q :: 0 <= q < |ts| && q != p ==> ts[q].id != id
    ensures ReplaceTicket(ts, id, t') == ts[p := t']
  {
  }

  /** The multiset of an updated sequence trades the old element for the new. */
  lemma MultisetUpdate<T>(s: seq<T>, p: nat, v: T)
    requires p < |s|
    ensures multiset(s[p := v]) == multiset(s) - multiset{s[p]} + multiset{v}
  {
    assert s == s[..p] + [s[p]] + s[p + 1..];
    assert s[p := v] == s[..p] + [v] + s[p + 1..];
  }

  /** An element occurring once in a sequence sits at one position only. */
  lemma OnlyPosition<T>(s: seq<T>, p: nat)
    requires p < |s| && multiset(s)[s[p]] == 1
    ensures forall q :: 0 <= q < |s| && q != p ==> s[q] != s[p]
  {
    forall q | 0 <= q < |s| && q != p
      ensures s[q] != s[p]
    {
      var lo, hi := if q < p then q else p, if q < p then p else q;
      assert s == s[..hi] + s[hi..];
      assert s[lo] in s[..hi];
      assert s[hi] in s[hi..];
      assert multiset(s)[s[hi]] == multiset(s[..hi])[s[hi]] + multiset(s[hi..])[s[hi]];
    }
  }
}
