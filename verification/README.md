# SIGE-Móvil school app: the logic behind the screens

SIGE-Móvil is a mobile front end for a school information system. A guardian
(*acudiente*), a teacher (*docente*) or an administrator logs in by picking a role.
Each gets a dashboard. From there they reach the alerts screen and, for a guardian,
the grade detail of a student. The application is a UI mock-up over fixed
demonstration data. This project models the small pieces of real logic the screens
contain, as pure functions over immutable values, and proves what they do:

- **Grades** (`grades.dfy`, `timeline.dfy`): the grade detail screen. It covers:
  - the weighted subject average `Σ(nota·peso) / Σ(peso)` for one subject and one
    period, which is 0 when nothing matches;
  - the list of distinct subjects;
  - the overall average, which is the plain mean of the subject averages;
  - the three performance tiers and their colours;
  - the chronological view: the period's entries, newest first.
- **Alerts** (`alerts.dfy`): the alerts screen. It covers marking one alert or all
  alerts read, the unread count, the "all / unread" switch, the category tabs and
  the "mark all read" button.
- **Navigation** (`navigation.dfy`): the application shell. Its state is the current
  screen, the logged-in user and the selected student. It covers the login, logout
  and navigate handlers and the rule that picks the screen component to render. A
  transition system over the buttons the screens offer shows that every reachable
  state renders exactly one screen.
- **Login** (`login.dfy`): the login screen. It covers the role picker, the
  demonstration user of each role, the prefilled user name and the early return
  when no role is chosen.
- **Teacher** (`teacher.dfy`): the teacher's dashboard. It covers the tri-state
  attendance (unrecorded, present, absent), its two highlighted buttons, and the
  course selector with its fall-back to the first course.
- **Names** (`names.dfy`): the avatar initials `nombre.split(' ').map(n => n[0]).join('')`.
  The model includes JavaScript's `split`, which keeps empty pieces.

`seqs.dfy` holds the list operations these share: `filter`, the summing `reduce`, the
mean, and `Array.from(new Set(...))`. It also holds their lemmas: concatenation,
permutation, bounds and subsequence. `wrappers.dfy` holds `Option`, which stands for
`null`.

Grades and weights are `real`, so the arithmetic is exact. A date is an integer key.
A JavaScript value that may be `null`, `undefined` or the empty string is an `Option`.
A string is "truthy" when it is present and not empty.

The overall average has no defined result when there are no entries: it divides by a
zero subject count. The code has no check for this and produces `NaN`. This model
follows the code and states the non-empty list as a precondition.

## Model

| member | source | states |
|---|---|---|
| Grades.NotasMateria | src/components/NotasDetalleScreen.tsx:69 | The entries selected for a subject average are exactly those of that subject and that period, kept in the input's order (a subsequence of the input). |
| Grades.NotasMateriaOcurrencias | src/components/NotasDetalleScreen.tsx:69-73 | Each entry of the subject and period is selected as often as it occurs in the input, so the sums count it that often. Entries of other subjects or periods occur 0 times. |
| Grades.PromedioMateria | src/components/NotasDetalleScreen.tsx:68-76 | When no entry matches both the subject and the period, the subject average is 0. |
| Grades.PromedioMateriaWeighted | src/components/NotasDetalleScreen.tsx:72-75 | With a match, the total matching weight is positive and average × Σ(peso) = Σ(nota·peso) over the matching entries. |
| Grades.PromedioMateriaIgnoresOthers | src/components/NotasDetalleScreen.tsx:69 | Inserting an entry of another subject or period anywhere leaves the subject average unchanged. |
| Grades.NotasMateriaIgnoresOthers | src/components/NotasDetalleScreen.tsx:69 | Inserting an entry of another subject or period leaves the selected entries, and their order, unchanged. |
| Grades.PromedioMateriaPermutation | src/components/NotasDetalleScreen.tsx:69-75 | Reordering the entries does not change any subject average. |
| Grades.PromedioMateriaBounds | src/components/NotasDetalleScreen.tsx:72-75 | With a match, the subject average lies between the smallest and the largest matching score. |
| Grades.PromedioMateriaWithin | src/components/NotasDetalleScreen.tsx:68-76 | If every score lies in [lo, hi], every subject average does too, unless it is the 0 of a subject with no entries in the period. |
| Grades.MateriasDe | src/components/NotasDetalleScreen.tsx:65 | The mapped list has one subject name per entry, in order, and holds exactly the subjects that occur. |
| Grades.Materias | src/components/NotasDetalleScreen.tsx:65 | The subject list has no duplicates and holds exactly the subjects of the entries, in the order of their first occurrence. It is empty only for an empty entry list. |
| Seqs.Distinct | src/components/NotasDetalleScreen.tsx:65 | `Array.from(new Set(s))` holds each value of `s` exactly once and nothing else, ordered by first occurrence in `s`. |
| Grades.MateriasUnicas | src/components/NotasDetalleScreen.tsx:65 | A single pass that appends each subject the first time it is seen builds the same list as the recursive definition `Materias`. The loop uses a set of the subjects seen so far, like `new Set(...)`. |
| Grades.Promedios | src/components/NotasDetalleScreen.tsx:80 | One average per subject, in the order of the subject list: entry i is the average of subject i. |
| Grades.PromedioGeneral | src/components/NotasDetalleScreen.tsx:79-82 | The overall average: the plain mean of the subject averages. It has no contract of its own. `PromedioGeneralBounds` and `PromedioGeneralNewSubject` state its meaning. |
| Grades.PromedioGeneralBounds | src/components/NotasDetalleScreen.tsx:79-82 | With scores in [0, hi], the overall average lies in [0, hi]. |
| Grades.PromediosNewSubject | src/components/NotasDetalleScreen.tsx:79-82 | Adding the first entry of a new subject outside the period appends the subject to the list, keeps the old averages and appends a 0 average. |
| Grades.PromedioGeneralNewSubject | src/components/NotasDetalleScreen.tsx:79-82 | A subject with no entries in the period still counts: it raises the subject count by one, adds nothing to the sum of averages, and enters the mean as a 0. |
| Grades.GetTendencia | src/components/NotasDetalleScreen.tsx:86-90 | Excelente if and only if ≥ 4.0, Aceptable if and only if 3.5 ≤ x < 4.0, Necesita mejorar if and only if < 3.5. Each boundary belongs to the higher tier. |
| Grades.GetColorNota | src/components/NotasDetalleScreen.tsx:92-96 | For every input, the colour of a grade is the colour of the tier that getTendencia assigns it. |
| Grades.TendenciaMonotonic | src/components/NotasDetalleScreen.tsx:86-90 | A higher average never falls into a lower tier. |
| Grades.MuestraRecomendaciones | src/components/NotasDetalleScreen.tsx:328 | The recommendations card shows exactly when the overall tier is not Excelente. |
| Grades.PromedioMatematicasPeriodo4 | src/components/NotasDetalleScreen.tsx:36-39 | For entries with the scores, weights and periods of the Matemáticas demonstration data, the period-4 average is 4.45, which is Excelente; the period-3 exam does not count. |
| Timeline.Insert | src/components/NotasDetalleScreen.tsx:284 | Inserting into a newest-first list keeps it newest first and adds exactly the one entry. |
| Timeline.SortNewestFirst | src/components/NotasDetalleScreen.tsx:284 | The sorted list is a permutation of the input, ordered by non-increasing date. |
| Timeline.Cronologico | src/components/NotasDetalleScreen.tsx:282-284 | The chronological view is a permutation of the period's entries, ordered by non-increasing date. |
| Timeline.CronologicoContents | src/components/NotasDetalleScreen.tsx:282-284 | The view holds each entry of the period exactly as often as the input does, and nothing from other periods. |
| Timeline.CronologicoPermutation | src/components/NotasDetalleScreen.tsx:282-284 | Reordering the entries does not change the view's contents. |
| Alerts.CuentaNoLeidas | src/components/AlertasScreen.tsx:116 | The unread count is at most the number of alerts. It is 0 exactly when every alert is read. |
| Alerts.CuentaNoLeidasAppend | src/components/AlertasScreen.tsx:116 | The count adds up over concatenation and counts 1 per unread alert, so it is the number of alerts with leido = false. |
| Alerts.MarcarComoLeida | src/components/AlertasScreen.tsx:118-122 | Length and order are preserved. An alert is read afterwards exactly when it was read before or carries the id. No other field changes. |
| Alerts.MarcarTodasLeidas | src/components/AlertasScreen.tsx:124-126 | Every alert becomes read, no other field changes, and the unread count becomes 0. |
| Alerts.MarcarComoLeidaIdempotent | src/components/AlertasScreen.tsx:118-122 | Marking the same id twice equals marking it once. |
| Alerts.MarcarComoLeidaCuenta | src/components/AlertasScreen.tsx:116-122 | Marking one alert never raises the unread count. The count drops exactly when an unread alert carries that id. |
| Alerts.MarcarTodasLeidasAbsorbe | src/components/AlertasScreen.tsx:118-126 | Mark-all after marking one alert gives the same list as mark-all alone. |
| Alerts.MarcarTodasLeidasFinal | src/components/AlertasScreen.tsx:118-126 | After mark-all, marking all again or marking any single alert changes nothing. |
| Alerts.AlertasFiltradas | src/components/AlertasScreen.tsx:112-114 | 'todas' returns the list unchanged. 'noLeidas' returns exactly the unread alerts, as many as the unread count. |
| Alerts.NoLeidasOrden | src/components/AlertasScreen.tsx:112-114 | The unread view keeps the input order and every occurrence of each unread alert. |
| Alerts.ContenidoPestana | src/components/AlertasScreen.tsx:261-327 | The Académico, Eventos and Admin tabs hold exactly the filtered alerts of their category, each as often as it occurs in the filtered list. The Todas tab holds the filtered list. |
| Alerts.PestanaSublista | src/components/AlertasScreen.tsx:261-327 | Every tab is an order-preserving sublist of the filtered alerts. A 'mensaje' alert appears in no category tab. |
| Alerts.MostrarMarcarTodas | src/components/AlertasScreen.tsx:191 | The "mark all read" button is offered exactly when some alert is unread. |
| Alerts.TodoAlDia | src/components/AlertasScreen.tsx:211 | In the unread view, the "all caught up" card appears exactly when the mark-all button does not. In the full view, it appears only for an empty list. |
| Navigation.HandleLogin | src/App.tsx:25-28 | Login sets the user and the dashboard screen and keeps the selected student. |
| Navigation.HandleLogout | src/App.tsx:30-34 | Logout returns to the initial state, whatever the prior state. |
| Navigation.NavigateTo | src/App.tsx:36-41 | The screen always becomes the target and the user is kept. The student is replaced only by a truthy id; otherwise the previous one stays. |
| Navigation.Rendered | src/App.tsx:45-86 | At most one component renders, and one does exactly in a coherent state. On the dashboard, the rendered component matches the user's role. Alerts need a user. Grade detail needs a user and a selected student. |
| Navigation.InicialRendersLogin | src/App.tsx:21-23 | The initial state is the login screen with no user and no student, and it renders the login screen. |
| Navigation.LoginLogoutRender | src/App.tsx:25-34 | After login the dashboard of the user's role renders. After logout the login screen renders. |
| Navigation.StepKeepsCoherent | src/App.tsx:45-86 | Every action the rendered screen offers leads from a rendering state to a rendering state. |
| Navigation.ReachableRendersOne | src/App.tsx:21-86 | Along any sequence of offered actions from a rendering state, exactly one screen component renders. |
| Navigation.NavigateWithoutStudentRendersNothing | src/App.tsx:36-41 | Navigating to grade detail with no truthy id and no stored student renders nothing. |
| Login.RolesCoverEachRoleOnce | src/components/LoginScreen.tsx:13-35 | The picker has three entries with distinct ids, and looking up any role finds it. |
| Login.HandleRoleSelect | src/components/LoginScreen.tsx:37-39 | Selecting a role records it. |
| Login.Volver | src/components/LoginScreen.tsx:97 | The back button clears the chosen role. |
| Login.MockUser | src/components/LoginScreen.tsx:45-49 | The demonstration user of a role has that role. |
| Login.MockUserInjective | src/components/LoginScreen.tsx:45-49 | Different roles give users with different ids. |
| Login.HandleLogin | src/components/LoginScreen.tsx:41-52 | No user is produced exactly when no role is chosen. Otherwise the user has the chosen role. |
| Login.DefaultUsername | src/components/LoginScreen.tsx:117 | Every role has a non-empty prefilled user name. |
| Login.DefaultUsernameInjective | src/components/LoginScreen.tsx:117 | Different roles have different prefilled user names. |
| Login.FindRol | src/components/LoginScreen.tsx:106 | The lookup returns an entry of the list with the requested id. It returns none exactly when no entry has that id. |
| Login.Titulo | src/components/LoginScreen.tsx:104-107 | With a role chosen, the line under the "Iniciar Sesión" heading is that role's name in the picker. With none chosen, it is absent. |
| Login.LoginShowsRoleDashboard | src/components/LoginScreen.tsx:41-52 | Choosing a role and logging in yields a user, and the shell then renders that role's dashboard. |
| Names.Split | src/components/DocenteDashboard.tsx:65 | Splitting yields at least one piece, and no piece contains a space. |
| Names.JoinSplit | src/components/DocenteDashboard.tsx:65 | Joining the pieces with spaces gives back the original string. |
| Names.SplitJoin | src/components/DocenteDashboard.tsx:65 | Splitting a space-join of space-free pieces gives back the pieces. |
| Names.Iniciales | src/components/DocenteDashboard.tsx:65 | The initials are exactly the characters that start a word, by an independent one-pass scan of the name. |
| Names.FirstLetters | src/components/DocenteDashboard.tsx:65 | The initials have at most one character per piece, because empty pieces contribute nothing. |
| Names.InicialesAreWordStarts | src/components/DocenteDashboard.tsx:65 | The initials are the word-starting characters of the name: never a space, always from the name, at most one per piece. |
| Names.InicialesOfWords | src/components/DocenteDashboard.tsx:65 | A name of non-empty words joined by single spaces gives exactly the first character of each word, in order. |
| Teacher.RosterStartsUnrecorded | src/components/DocenteDashboard.tsx:32-38 | Every student of the roster starts with attendance unrecorded, and the ids are distinct. |
| Teacher.HandleAsistencia | src/components/DocenteDashboard.tsx:51-55 | Length and order are preserved. The matching students get the new value. Every other student and every other field are unchanged. |
| Teacher.HandleAsistenciaIdempotent | src/components/DocenteDashboard.tsx:51-55 | Repeating the same attendance update changes nothing. |
| Teacher.HandleAsistenciaLastWins | src/components/DocenteDashboard.tsx:51-55 | For one student, the last update decides. |
| Teacher.HandleAsistenciaCommutes | src/components/DocenteDashboard.tsx:51-55 | Updates for different students commute. |
| Teacher.Resaltado | src/components/DocenteDashboard.tsx:163-175 | The present and absent highlights are never both on. Both are off while attendance is unrecorded. |
| Teacher.HandleAsistenciaHighlights | src/components/DocenteDashboard.tsx:160-175 | After a button is pressed, exactly its highlight is on for that student. |
| Teacher.FindCurso | src/components/DocenteDashboard.tsx:94 | The lookup returns a listed course with the id. It returns none exactly when no course has it. |
| Teacher.SeleccionarCurso | src/components/DocenteDashboard.tsx:94 | The selection is always a listed course: the matching one if any, otherwise the first. |
| Teacher.SeleccionarCursoAsignado | src/components/DocenteDashboard.tsx:27-30 | With the assigned courses, id "2" selects the second course. Id "1", which is the first course's, or any unlisted id selects the first course. |

## Left out

- Rendering is not modelled: JSX, Tailwind classes, icons and the `./ui/*` components.
  React's `useState` is not modelled either; each handler is a pure function from
  state to state.
- `AdministradorDashboard.tsx` and `AcudienteDashboard.tsx` are not modelled. They
  render fixed data. Their only logic repeats what is modelled here: the tier
  thresholds, the unread count and the initials expression.
- Floating point is not modelled. Grades are exact reals, so `toFixed(2)`, IEEE
  rounding and the progress-bar widths `promedio / 5.0 * 100` are out of scope.
- Date strings such as `'10 Nov 2024'` and their parsing by `new Date(...)` are not
  modelled. A date is an abstract integer key.
- Grades.PromedioMateria: requires every weight to be positive, the invariant of the
  grade records. With a zero total weight the code divides by zero and yields `NaN`,
  which is not modelled.
- Grades.PromedioGeneral: requires a non-empty entry list, because with no subjects
  the code divides by zero and yields `NaN`. The function states its meaning through
  `PromedioGeneralBounds` and `PromedioGeneralNewSubject`. It has no contract of its
  own.
- Timeline.SortNewestFirst: does not state that entries with the same date keep their
  input order. `Array.prototype.sort` is stable, and the insertion places an entry
  before equal dates so that the order is kept, but no lemma proves it.
- Login.FindRol: does not state that `find` returns the first match. The role ids are
  distinct, so at most one entry matches.
- Teacher.FindCurso: does not state that `find` returns the first match. The course
  ids of the data are distinct.
- Teacher.SeleccionarCurso: requires a non-empty course list. The code indexes
  `cursosAsignados[0]`, and that list is a fixed two-element constant.
- Names.FirstLetters: a JavaScript string index is a UTF-16 code unit; here a
  character is a Unicode scalar value. The two agree on every name in the data.
- Navigation.ReachableRendersOne: the guardian's dashboard passes a fixed student id
  (`estudiantes[0].id`). The transition system allows any truthy id, which is more
  general.
- Not modelled, because they hold no logic:
  - the alert icon and colour lookups;
  - the login form's user-name and password inputs, which are never read;
  - the teacher dashboard's pending activities, its search box and its grade-entry
    toggle.
- The `reduce` calls sum from the left; `Sum` here adds from the right. Over reals the
  two agree.
