/** The teacher's dashboard: today's attendance of the current course and the course
    selector. */
module Teacher {
  import opened Wrappers

  /** A student of the current course; `asistenciaHoy` is `None` until attendance is taken,
      then `Some(true)` for present and `Some(false)` for absent. */
  datatype Estudiante = Estudiante(id: string, nombre: string, asistenciaHoy: Option<bool>, ultimaNota: real)

  const EstudiantesCursoActual: seq<Estudiante> := [
    Estudiante("1", "Ana González", None, 4.5),
    Estudiante("2", "Carlos Pérez", None, 3.8),
    Estudiante("3", "María Rodríguez", None, 4.2),
    Estudiante("4", "Juan Martínez", None, 3.5),
    Estudiante("5", "Laura Sánchez", None, 4.8)
  ]

  /** Attendance starts unrecorded for every student of the roster, and no two students
      share an id. */
  lemma RosterStartsUnrecorded()
    ensures forall i :: 0 <= i < |EstudiantesCursoActual| ==> EstudiantesCursoActual[i].asistenciaHoy == None
    ensures forall i, j :: 0 <= i < j < |EstudiantesCursoActual| ==>
      EstudiantesCursoActual[i].id != EstudiantesCursoActual[j].id
  {
  }

  /** The check or cross button of a student: `estudiantes.map(est => est.id === id ?
      { ...est, asistenciaHoy: presente } : est)`. */
  function HandleAsistencia(estudiantes: seq<Estudiante>, id: string, presente: bool): (r: seq<Estudiante>)
    ensures |r| == |estudiantes|
    ensures forall i :: 0 <= i < |r| ==>
      r[i].asistenciaHoy == (if estudiantes[i].id == id then Some(presente) else estudiantes[i].asistenciaHoy)
    ensures forall i :: 0 <= i < |r| ==> r[i] == estudiantes[i].(asistenciaHoy := r[i].asistenciaHoy)
  {
    if |estudiantes| == 0 then []
    else
      var e := estudiantes[0];
      [if e.id == id then e.(asistenciaHoy := Some(presente)) else e] + HandleAsistencia(estudiantes[1..], id, presente)
  }

  /** Pressing the same button twice has the effect of pressing it once. */
  lemma {:induction false} HandleAsistenciaIdempotent(estudiantes: seq<Estudiante>, id: string, presente: bool)
    ensures HandleAsistencia(HandleAsistencia(estudiantes, id, presente), id, presente)
         == HandleAsistencia(estudiantes, id, presente)
  {
    if |estudiantes| != 0 {
      HandleAsistenciaIdempotent(estudiantes[1..], id, presente);
    }
  }

  /** For one student, the last button pressed decides. */
  lemma {:induction false} HandleAsistenciaLastWins(estudiantes: seq<Estudiante>, id: string, p: bool, q: bool)
    ensures HandleAsistencia(HandleAsistencia(estudiantes, id, p), id, q) == HandleAsistencia(estudiantes, id, q)
  {
    if |estudiantes| != 0 {
      HandleAsistenciaLastWins(estudiantes[1..], id, p, q);
    }
  }

  /** Marks for different students do not interfere: their order does not matter. */
  lemma {:induction false} HandleAsistenciaCommutes(estudiantes: seq<Estudiante>, a: string, p: bool, b: string, q: bool)
    requires a != b
    ensures HandleAsistencia(HandleAsistencia(estudiantes, a, p), b, q)
         == HandleAsistencia(HandleAsistencia(estudiantes, b, q), a, p)
  {
    if |estudiantes| != 0 {
      HandleAsistenciaCommutes(estudiantes[1..], a, p, b, q);
    }
  }

  /** The highlighted state of the two buttons: the check is green for `=== true`, the
      cross red for `=== false`. */
  function Resaltado(e: Estudiante): (r: (bool, bool))
    ensures !(r.0 && r.1)
    ensures e.asistenciaHoy == None ==> !r.0 && !r.1
    ensures e.asistenciaHoy.Some? ==> r.0 == e.asistenciaHoy.value && r.1 == !e.asistenciaHoy.value
  {
    (e.asistenciaHoy == Some(true), e.asistenciaHoy == Some(false))
  }

  /** After a button is pressed, exactly the matching highlight is on for that student. */
  lemma HandleAsistenciaHighlights(estudiantes: seq<Estudiante>, id: string, presente: bool, i: nat)
    requires i < |estudiantes| && estudiantes[i].id == id
    ensures Resaltado(HandleAsistencia(estudiantes, id, presente)[i]) == (presente, !presente)
  {
  }

  /** A course the teacher is assigned to; `estudiantes` is its head count. */
  datatype Curso = Curso(id: string, nombre: string, materia: string, estudiantes: nat)

  const CursosAsignados: seq<Curso> := [
    Curso("1", "5° Primaria A", "Matemáticas", 25),
    Curso("2", "5° Primaria B", "Matemáticas", 23)
  ]

  /** `cursos.find(c => c.id === id)`. */
  function FindCurso(cursos: seq<Curso>, id: string): (r: Option<Curso>)
    ensures r.None? <==> forall i :: 0 <= i < |cursos| ==> cursos[i].id != id
    ensures r.Some? ==> r.value.id == id && r.value in cursos
  {
    if |cursos| == 0 then None
    else if cursos[0].id == id then Some(cursos[0])
    else
      var r := FindCurso(cursos[1..], id);
      assert forall i :: 1 <= i < |cursos| ==> cursos[i] == cursos[1..][i - 1];
      r
  }

  /** The course selector's change handler: the course with the chosen id, or the first
      course when none matches. */
  function SeleccionarCurso(cursos: seq<Curso>, id: string): (r: Curso)
    requires |cursos| > 0
    ensures r in cursos
    ensures (exists i :: 0 <= i < |cursos| && cursos[i].id == id) ==> r.id == id
    ensures (forall i :: 0 <= i < |cursos| ==> cursos[i].id != id) ==> r == cursos[0]
  {
    FindCurso(cursos, id).GetOr(cursos[0])
  }

  /** With the assigned courses, the selector always lands on one of them: on the second
      course for its id "2", and on the first course for id "1" or any id not listed. */
  lemma SeleccionarCursoAsignado(id: string)
    ensures SeleccionarCurso(CursosAsignados, id) in CursosAsignados
    ensures id == "2" ==> SeleccionarCurso(CursosAsignados, id) == CursosAsignados[1]
    ensures id != "2" ==> SeleccionarCurso(CursosAsignados, id) == CursosAsignados[0]
  {
  }
}
