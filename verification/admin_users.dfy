/** The user administration page: the form's validation, the request it
    sends for a create or an edit, loading a user into the form for
    editing, and the id mapping applied to the user list. */
module AdminUsers {
  import opened Wrappers
  import opened Domain
  import Text

  /** The form's state (`usuarioActual`). */
  datatype UserForm = UserForm(idUsuario: int, nombre: string, usuario: string, rol: string, clave: string)

  /** A user as the page keeps it in its list. */
  datatype ListedUser = ListedUser(idUsuario: int, nombre: string, usuario: string, rol: string)

  /** A user row as it arrives in JSON: `idUsuario` may be missing. */
  datatype ApiUser = ApiUser(idUsuario: Option<int>, id: int, nombre: string, usuario: string, rol: string)

  datatype HttpMethod = Post | Patch

  /** The JSON body: `clave` is left out when absent. */
  datatype UserPayload = UserPayload(nombre: string, usuario: string, rol: string, clave: Option<string>)

  datatype UserRequest = UserRequest(verb: HttpMethod, url: string, payload: UserPayload)

  /** What submitting the form does: show an error and send nothing, or send a request. */
  datatype SubmitOutcome = Invalid(error: string) | Send(request: UserRequest)

  /** The form's state after `editarUsuario`. */
  datatype EditorState = EditorState(form: UserForm, modoEdicion: bool, mostrarFormulario: bool)

  const NameRequired := "El nombre es requerido"
  const UsernameRequired := "El nombre de usuario es requerido"
  const PasswordRequired := "La contrase\U{00F1}a es requerida"
  const UsersPath := "/api/usuarios"

  /** The endpoint of one user. */
  function UserPath(idUsuario: int): string {
    UsersPath + "/" + Text.IntToString(idUsuario)
  }

  /** `handleSubmit`: the name, then the login, then (when creating) the
      password must be present; an edit sends PATCH to the user's own
      path, a create sends POST to the collection; the password travels
      only when it is non-empty. */
  function Submit(form: UserForm, modoEdicion: bool): (r: SubmitOutcome)
    ensures Text.Trim(form.nombre) == "" ==> r == Invalid(NameRequired)
    ensures Text.Trim(form.nombre) != "" && Text.Trim(form.usuario) == "" ==> r == Invalid(UsernameRequired)
    ensures r.Invalid? <==>
      Text.Trim(form.nombre) == "" || Text.Trim(form.usuario) == "" || (!modoEdicion && form.clave == "")
    ensures r.Send? ==>
      && r.request.verb == (if modoEdicion then Patch else Post)
      && r.request.url == (if modoEdicion then UserPath(form.idUsuario) else UsersPath)
      && r.request.payload.nombre == form.nombre
      && r.request.payload.usuario == form.usuario
      && r.request.payload.rol == form.rol
      && (r.request.payload.clave.Some? <==> form.clave != "")
      && (r.request.payload.clave.Some? ==> r.request.payload.clave.value == form.clave)
  {
    if Text.Trim(form.nombre) == "" then Invalid(NameRequired)
    else if Text.Trim(form.usuario) == "" then Invalid(UsernameRequired)
    else if !modoEdicion && form.clave == "" then Invalid(PasswordRequired)
    else
      var verb := if modoEdicion then Patch else Post;
      var url := if modoEdicion then UserPath(form.idUsuario) else UsersPath;
      var payload := UserPayload(form.nombre, form.usuario, form.rol, if form.clave != "" then Some(form.clave) else None);
      Send(UserRequest(verb, url, payload))
  }

  /** An empty password blocks a create but never an edit. */
  lemma PasswordOnlyRequiredOnCreate(form: UserForm)
    requires Text.Trim(form.nombre) != "" && Text.Trim(form.usuario) != "" && form.clave == ""
    ensures Submit(form, false) == Invalid(PasswordRequired)
    ensures Submit(form, true).Send? && Submit(form, true).request.payload.clave == None
  {
  }

  /** `editarUsuario`: copy the user into the form with an empty password
      and open the form in edit mode. */
  function EditUser(u: ListedUser): (s: EditorState)
    ensures s.modoEdicion && s.mostrarFormulario
    ensures s.form.clave == ""
    ensures s.form.idUsuario == u.idUsuario && s.form.nombre == u.nombre
    ensures s.form.usuario == u.usuario && s.form.rol == u.rol
  {
    EditorState(UserForm(u.idUsuario, u.nombre, u.usuario, u.rol, ""), true, true)
  }

  /** Editing a user and saving without changes sends a PATCH of the same
      name, login and role to that user's path, without a password, so the
      stored password is kept. */
  lemma EditThenSaveKeepsPassword(u: ListedUser)
    requires Text.Trim(u.nombre) != "" && Text.Trim(u.usuario) != ""
    ensures var s := EditUser(u);
      Submit(s.form, s.modoEdicion)
        == Send(UserRequest(Patch, UserPath(u.idUsuario), UserPayload(u.nombre, u.usuario, u.rol, None)))
  {
  }

  /** The id segment of a user's path denotes the user's id, so the
      update and delete routes, which match on that segment, address the
      user the form was loaded from. */
  lemma UserPathNamesTheUser(idUsuario: nat)
    ensures var path := UserPath(idUsuario);
      var segment := path[|UsersPath| + 1..];
      && UsersPath + "/" <= path
      && Text.AllDigits(segment)
      && Text.DecimalValue(segment) == idUsuario
  {
    var path := UserPath(idUsuario);
    assert path[|UsersPath| + 1..] == Text.NatToString(idUsuario);
    Text.DecimalRoundTrip(idUsuario);
  }

  /** The id `cargarUsuarios` keeps: `idUsuario` when it is truthy,
      otherwise `id`. */
  function MapApiUser(raw: ApiUser): (u: ListedUser)
    ensures raw.idUsuario.Some? && raw.idUsuario.value != 0 ==> u.idUsuario == raw.idUsuario.value
    ensures raw.idUsuario.None? || raw.idUsuario.value == 0 ==> u.idUsuario == raw.id
    ensures u.nombre == raw.nombre && u.usuario == raw.usuario && u.rol == raw.rol
  {
    ListedUser(if raw.idUsuario.Some? && raw.idUsuario.value != 0 then raw.idUsuario.value else raw.id,
               raw.nombre, raw.usuario, raw.rol)
  }

  /** The users endpoint sends each row without an `idUsuario` field. */
  function FromUserRow(u: UserRow): ApiUser {
    ApiUser(None, u.id, u.nombre, u.usuario, u.rol)
  }

  /** So every listed user carries the row's `id`, the fallback branch
      being the one taken in practice. */
  lemma ListedIdIsRowId(u: UserRow)
    ensures MapApiUser(FromUserRow(u)) == ListedUser(u.id, u.nombre, u.usuario, u.rol)
  {
  }
}
