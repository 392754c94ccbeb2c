/** The login screen: pick a role, then log in as that role's demonstration user. */
module Login {
  import opened Wrappers
  import Navigation

  type UserRole = Navigation.UserRole

  /** An entry of the role picker; icon and colour are not part of this model. */
  datatype RolOpcion = RolOpcion(id: UserRole, nombre: string, descripcion: string)

  const Roles: seq<RolOpcion> := [
    RolOpcion(Navigation.Acudiente, "Acudiente", "Padres y representantes"),
    RolOpcion(Navigation.Docente, "Docente", "Profesores y educadores"),
    RolOpcion(Navigation.Administrador, "Administrador", "Gestión del sistema")
  ]

  /** The screen's only state: the role chosen so far, if any. */
  datatype LoginScreen = LoginScreen(selectedRole: Option<UserRole>)

  const Inicial := LoginScreen(None)

  function HandleRoleSelect(st: LoginScreen, rol: UserRole): (r: LoginScreen)
    ensures r.selectedRole == Some(rol)
  {
    st.(selectedRole := Some(rol))
  }

  /** The "← Volver" button clears the choice and shows the picker again. */
  function Volver(st: LoginScreen): (r: LoginScreen)
    ensures r.selectedRole == None
  {
    st.(selectedRole := None)
  }

  /** The demonstration user of each role. */
  function MockUser(rol: UserRole): (u: Navigation.User)
    ensures u.rol == rol
  {
    match rol
    case Acudiente => Navigation.User("1", "María González", Navigation.Acudiente)
    case Docente => Navigation.User("2", "Prof. Carlos Ruiz", Navigation.Docente)
    case Administrador => Navigation.User("3", "Admin Sistema", Navigation.Administrador)
  }

  /** Different roles log in as different users. */
  lemma MockUserInjective(a: UserRole, b: UserRole)
    ensures MockUser(a).id == MockUser(b).id ==> a == b
  {
  }

  /** The user handed to `onLogin`, or none when no role is chosen (the early return). */
  function HandleLogin(st: LoginScreen): (r: Option<Navigation.User>)
    ensures r.None? <==> st.selectedRole.None?
    ensures r.Some? ==> r.value.rol == st.selectedRole.value
  {
    match st.selectedRole
    case None => None
    case Some(rol) => Some(MockUser(rol))
  }

  /** The prefilled user name of the form. */
  function DefaultUsername(rol: UserRole): (s: string)
    ensures |s| > 0
  {
    if rol == Navigation.Acudiente then "mgonzalez"
    else if rol == Navigation.Docente then "cruiz"
    else "admin"
  }

  /** Each role has its own prefilled user name. */
  lemma DefaultUsernameInjective(a: UserRole, b: UserRole)
    ensures DefaultUsername(a) == DefaultUsername(b) ==> a == b
  {
  }

  /** `roles.find(r => r.id === id)`. */
  function FindRol(roles: seq<RolOpcion>, id: UserRole): (r: Option<RolOpcion>)
    ensures r.Some? ==> r.value.id == id && r.value in roles
    ensures r.None? <==> forall i :: 0 <= i < |roles| ==> roles[i].id != id
  {
    if |roles| == 0 then None
    else if roles[0].id == id then Some(roles[0])
    else
      var r := FindRol(roles[1..], id);
      assert forall i :: 1 <= i < |roles| ==> roles[i] == roles[1..][i - 1];
      r
  }

  /** The picker lists each role exactly once, so looking a role up always finds it. */
  lemma RolesCoverEachRoleOnce()
    ensures |Roles| == 3
    ensures forall i, j :: 0 <= i < j < |Roles| ==> Roles[i].id != Roles[j].id
    ensures forall rol: UserRole :: FindRol(Roles, rol).Some?
  {
    forall rol: UserRole ensures FindRol(Roles, rol).Some? {
      match rol
      case Acudiente => assert Roles[0].id == rol;
      case Docente => assert Roles[1].id == rol;
      case Administrador => assert Roles[2].id == rol;
    }
  }

  /** The line under the "Iniciar Sesión" heading: the picker's name of the chosen role. */
  function Titulo(st: LoginScreen): (t: Option<string>)
    ensures st.selectedRole.None? ==> t.None?
    ensures st.selectedRole.Some? ==>
      (t.Some? && exists i :: 0 <= i < |Roles| && Roles[i].id == st.selectedRole.value && Roles[i].nombre == t.value)
  {
    match st.selectedRole
    case None => None
    case Some(rol) =>
      RolesCoverEachRoleOnce();
      var o := FindRol(Roles, rol);
      Some(o.value.nombre)
  }

  /** Choosing a role and pressing "Ingresar" logs in a user of that role, and the
      shell then shows that role's dashboard. */
  lemma LoginShowsRoleDashboard(st: LoginScreen, app: Navigation.AppState, rol: UserRole)
    ensures HandleLogin(HandleRoleSelect(st, rol)).Some?
    ensures Navigation.Rendered(Navigation.HandleLogin(app, HandleLogin(HandleRoleSelect(st, rol)).value))
            == [Navigation.DashboardOf(rol)]
  {
  }
}
