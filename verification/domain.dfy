/** The records and closed enumerations shared by the API handlers and the
    pages: roles, ticket priorities and statuses (each with the exact text
    the program stores and compares), tickets, user rows and sessions. */
module Domain {
  import opened Wrappers

  // ---------------------------------------------------------------------
  // roles
  // ---------------------------------------------------------------------

  datatype Role = Administrador | Empleado | Usuario

  /** The role's text in the `rol` column and in the session's role claim. */
  function RoleName(r: Role): string {
    match r
    case Administrador => "Administrador"
    case Empleado => "Empleado"
    case Usuario => "Usuario"
  }

  /** The role a claim names, if any; the comparison is exact (case-sensitive). */
  function ParseRole(s: string): (r: Option<Role>)
    ensures r.Some? ==> RoleName(r.value) == s
    ensures r.None? ==> forall q :: RoleName(q) != s
  {
    if s == "Administrador" then Some(Administrador)
    else if s == "Empleado" then Some(Empleado)
    else if s == "Usuario" then Some(Usuario)
    else None
  }

  // ---------------------------------------------------------------------
  // priorities
  // ---------------------------------------------------------------------

  datatype Priority = Baja | Media | Alta | Critica

  function PriorityName(p: Priority): string {
    match p
    case Baja => "Baja"
    case Media => "Media"
    case Alta => "Alta"
    case Critica => "Cr\U{00ED}tica"
  }

  /** The accepted priority words, in the order the error message lists them. */
  const PriorityNames: seq<string> := ["Baja", "Media", "Alta", "Cr\U{00ED}tica"]

  function ParsePriority(s: string): (r: Option<Priority>)
    ensures r.Some? <==> s in PriorityNames
    ensures r.Some? ==> PriorityName(r.value) == s
    ensures r.None? ==> forall p :: PriorityName(p) != s
  {
    if s == "Baja" then Some(Baja)
    else if s == "Media" then Some(Media)
    else if s == "Alta" then Some(Alta)
    else if s == "Cr\U{00ED}tica" then Some(Critica)
    else None
  }

  // ---------------------------------------------------------------------
  // statuses
  // ---------------------------------------------------------------------

  datatype Status = Pendiente | EnProceso | Resuelto | Rechazado

  function StatusName(s: Status): string {
    match s
    case Pendiente => "Pendiente"
    case EnProceso => "En_Proceso"
    case Resuelto => "Resuelto"
    case Rechazado => "Rechazado"
  }

  /** The status words the update handler accepts, in its error message's order. */
  const StatusNames: seq<string> := ["Pendiente", "En_Proceso", "Resuelto", "Rechazado"]

  function ParseStatus(s: string): (r: Option<Status>)
    ensures r.Some? <==> s in StatusNames
    ensures r.Some? ==> StatusName(r.value) == s
    ensures r.None? ==> forall q :: StatusName(q) != s
  {
    if s == "Pendiente" then Some(Pendiente)
    else if s == "En_Proceso" then Some(EnProceso)
    else if s == "Resuelto" then Some(Resuelto)
    else if s == "Rechazado" then Some(Rechazado)
    else None
  }

  /** The statuses whose update stamps a closure date. */
  predicate IsClosing(s: Status) {
    s == Resuelto || s == Rechazado
  }

  /** Format then parse is the identity on every enumeration. */
  lemma NamesRoundTrip(r: Role, p: Priority, s: Status)
    ensures ParseRole(RoleName(r)) == Some(r)
    ensures ParsePriority(PriorityName(p)) == Some(p)
    ensures ParseStatus(StatusName(s)) == Some(s)
  {
  }

  // ---------------------------------------------------------------------
  // records
  // ---------------------------------------------------------------------

  /** A stored ticket. Dates are milliseconds since the epoch; `fechaCierre`
      and `idEmpleado` are nullable columns. */
  datatype Ticket = Ticket(
    id: int,
    descripcion: string,
    prioridad: Priority,
    estado: Status,
    fechaCreacion: int,
    fechaCierre: Option<int>,
    idUsuario: int,
    idEmpleado: Option<int>)

  /** A user as the users endpoint lists it (never with the password hash). */
  datatype UserRow = UserRow(id: int, nombre: string, usuario: string, rol: string)

  /** The signed-in user's claims: the id (a decimal string) and the role
      text. The route guard's token and the pages' session carry the same
      two claims. */
  datatype Session = Session(id: string, role: string)
}
