/** The application shell: which screen is current, who is logged in, which student is
    selected, the three handlers that change them, and the rule that decides which
    screen component renders. */
module Navigation {
  import opened Wrappers

  datatype UserRole = Acudiente | Docente | Administrador

  /** A logged-in user; the optional avatar is not part of this model. */
  datatype User = User(id: string, nombre: string, rol: UserRole)

  datatype Screen = Login | Dashboard | Alertas | NotasDetalle

  datatype AppState = AppState(screen: Screen, user: Option<User>, estudianteId: Option<string>)

  /** The screen components the shell can render. */
  datatype View =
    | LoginView
    | AcudienteView
    | DocenteView
    | AdministradorView
    | AlertasView
    | NotasDetalleView(estudianteId: string)

  /** JavaScript truthiness of an optional string: present and not empty. */
  predicate Truthy(s: Option<string>) {
    s.Some? && s.value != ""
  }

  /** The login screen, nobody logged in, no student selected. */
  const Inicial := AppState(Login, None, None)

  function HandleLogin(st: AppState, u: User): (r: AppState)
    ensures r.screen == Dashboard && r.user == Some(u)
    ensures r.estudianteId == st.estudianteId
  {
    st.(screen := Dashboard, user := Some(u))
  }

  function HandleLogout(st: AppState): (r: AppState)
    ensures r == Inicial
  {
    AppState(Login, None, None)
  }

  /** Switches to `screen`; a student id replaces the selected one only when it is truthy,
      so an absent or empty id keeps the previous selection. */
  function NavigateTo(st: AppState, screen: Screen, estudianteId: Option<string>): (r: AppState)
    ensures r.screen == screen && r.user == st.user
    ensures Truthy(estudianteId) ==> r.estudianteId == estudianteId
    ensures !Truthy(estudianteId) ==> r.estudianteId == st.estudianteId
  {
    if Truthy(estudianteId) then st.(screen := screen, estudianteId := estudianteId)
    else st.(screen := screen)
  }

  function DashboardOf(rol: UserRole): View {
    match rol
    case Acudiente => AcudienteView
    case Docente => DocenteView
    case Administrador => AdministradorView
  }

  /** The states in which some screen component renders: the login screen always; any
      other screen needs a user, and the grade detail also needs a selected student. */
  predicate Coherent(st: AppState) {
    st.screen == Login ||
    (st.user.Some? && (st.screen == NotasDetalle ==> Truthy(st.estudianteId)))
  }

  /** The six guarded components of the shell, in order; each contributes itself when
      its guard holds. */
  function Rendered(st: AppState): (r: seq<View>)
    ensures |r| <= 1
    ensures |r| == 1 <==> Coherent(st)
    ensures st.screen == Login ==> r == [LoginView]
    ensures st.screen == Dashboard && st.user.Some? ==> r == [DashboardOf(st.user.value.rol)]
    ensures st.screen == Alertas && st.user.Some? ==> r == [AlertasView]
    ensures st.screen == NotasDetalle && st.user.Some? && Truthy(st.estudianteId) ==>
      r == [NotasDetalleView(st.estudianteId.value)]
  {
    var dashboard := st.screen == Dashboard && st.user.Some?;
    (if st.screen == Login then [LoginView] else []) +
    (if dashboard && st.user.value.rol == Acudiente then [AcudienteView] else []) +
    (if dashboard && st.user.value.rol == Docente then [DocenteView] else []) +
    (if dashboard && st.user.value.rol == Administrador then [AdministradorView] else []) +
    (if st.screen == Alertas && st.user.Some? then [AlertasView] else []) +
    (if st.screen == NotasDetalle && st.user.Some? && Truthy(st.estudianteId)
     then [NotasDetalleView(st.estudianteId.value)] else [])
  }

  /** What a user can do: log in from the login screen, log out from a dashboard, or
      follow one of the navigation buttons the rendered screen offers. */
  datatype Action = LoginAs(u: User) | Logout | Navigate(screen: Screen, estudianteId: Option<string>)

  predicate IsDashboard(v: View) {
    v == AcudienteView || v == DocenteView || v == AdministradorView
  }

  /** The call sites of the handlers: the login screen calls `onLogin`; every dashboard
      offers logout and the alerts bell; the guardian's dashboard opens a student's grade
      detail; the alerts and grade-detail screens lead back to the dashboard. */
  predicate Enabled(st: AppState, a: Action) {
    var views := Rendered(st);
    |views| == 1 &&
    match a
    case LoginAs(_) => views[0] == LoginView
    case Logout => IsDashboard(views[0])
    case Navigate(Alertas, id) => IsDashboard(views[0]) && id == None
    case Navigate(NotasDetalle, id) => views[0] == AcudienteView && Truthy(id)
    case Navigate(Dashboard, id) => (views[0] == AlertasView || views[0].NotasDetalleView?) && id == None
    case Navigate(Login, _) => false
  }

  function Step(st: AppState, a: Action): AppState {
    match a
    case LoginAs(u) => HandleLogin(st, u)
    case Logout => HandleLogout(st)
    case Navigate(screen, id) => NavigateTo(st, screen, id)
  }

  /** Every action in `trace` is offered by the screen current when it is taken. */
  predicate ValidTrace(st: AppState, trace: seq<Action>)
    decreases |trace|
  {
    |trace| == 0 || (Enabled(st, trace[0]) && ValidTrace(Step(st, trace[0]), trace[1..]))
  }

  function Run(st: AppState, trace: seq<Action>): AppState
    decreases |trace|
  {
    if |trace| == 0 then st else Run(Step(st, trace[0]), trace[1..])
  }

  /** The stored student id is never the empty string. */
  predicate StoredIdTruthy(st: AppState) {
    st.estudianteId.None? || Truthy(st.estudianteId)
  }

  /** An action a screen offers leads from a rendering state to a rendering state. */
  lemma StepKeepsCoherent(st: AppState, a: Action)
    requires Coherent(st) && StoredIdTruthy(st) && Enabled(st, a)
    ensures Coherent(Step(st, a)) && StoredIdTruthy(Step(st, a))
  {
    var v := Rendered(st)[0];
    match a
    case LoginAs(u) =>
    case Logout =>
    case Navigate(screen, id) =>
      assert v != LoginView;
      assert st.user.Some?;
  }

  /** From the start, whatever the user does through the buttons on screen, exactly one
      screen component renders. */
  lemma {:induction false} ReachableRendersOne(st: AppState, trace: seq<Action>)
    requires Coherent(st) && StoredIdTruthy(st)
    requires ValidTrace(st, trace)
    ensures |Rendered(Run(st, trace))| == 1
    decreases |trace|
  {
    if |trace| != 0 {
      StepKeepsCoherent(st, trace[0]);
      ReachableRendersOne(Step(st, trace[0]), trace[1..]);
    }
  }

  lemma InicialRendersLogin()
    ensures Coherent(Inicial) && StoredIdTruthy(Inicial)
    ensures Rendered(Inicial) == [LoginView]
  {
  }

  /** Logging in shows the dashboard of the user's role; logging out shows the login
      screen, from any state. */
  lemma LoginLogoutRender(st: AppState, u: User)
    ensures Rendered(HandleLogin(st, u)) == [DashboardOf(u.rol)]
    ensures Rendered(HandleLogout(st)) == [LoginView]
  {
  }

  /** Outside the buttons on screen the shell can render nothing: opening the grade detail
      without a student id, when none was selected before, leaves the page blank. */
  lemma NavigateWithoutStudentRendersNothing(st: AppState, id: Option<string>)
    requires st.estudianteId == None && !Truthy(id)
    ensures Rendered(NavigateTo(st, NotasDetalle, id)) == []
  {
  }
}
