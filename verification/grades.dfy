/** The grade detail screen (`NotasDetalleScreen`): weighted per-subject averages,
    the list of subjects, the overall average and the three-tier classification. */
module Grades {
  import opened Seqs

  datatype TipoNota = Examen | Taller | Tarea | Proyecto

  /** One assessment result. `fecha` is the date as an abstract, comparable key;
      `nota` is on the 0.0 to 5.0 scale and `peso` is its contribution weight. */
  datatype Nota = Nota(
    id: string,
    materia: string,
    tipo: TipoNota,
    titulo: string,
    nota: real,
    fecha: int,
    periodo: int,
    peso: real)

  /** Every entry weighs something: the invariant of the grade records. */
  ghost predicate PesosPositivos(notas: seq<Nota>) {
    forall n :: n in notas ==> n.peso > 0.0
  }

  /** Every score lies in `[lo, hi]`. */
  ghost predicate NotasEntre(notas: seq<Nota>, lo: real, hi: real) {
    forall n :: n in notas ==> lo <= n.nota <= hi
  }

  function Peso(n: Nota): real { n.peso }

  function Ponderada(n: Nota): real { n.nota * n.peso }

  /** The selection of `calcularPromedioMateria`: same subject and same period. */
  function DeMateria(materia: string, periodo: int): Nota -> bool {
    (n: Nota) => n.materia == materia && n.periodo == periodo
  }

  /** The entries a subject average is computed over: the entries of that subject and
      period, in the input's order. */
  function NotasMateria(notas: seq<Nota>, materia: string, periodo: int): (r: seq<Nota>)
    ensures forall n :: n in r <==> n in notas && n.materia == materia && n.periodo == periodo
    ensures Subsequence(r, notas)
  {
    FilterSubsequence(notas, DeMateria(materia, periodo));
    Filter(notas, DeMateria(materia, periodo))
  }

  /** The selection keeps every entry of the subject and period as often as it occurs, so
      a repeated entry is summed as often as it is listed; it keeps nothing else. */
  lemma NotasMateriaOcurrencias(notas: seq<Nota>, materia: string, periodo: int)
    ensures forall n :: multiset(NotasMateria(notas, materia, periodo))[n]
                      == if n.materia == materia && n.periodo == periodo then multiset(notas)[n] else 0
  {
    FilterMultiplicity(notas, DeMateria(materia, periodo));
  }

  lemma {:induction false} SumPesoPositive(s: seq<Nota>)
    requires |s| > 0 && PesosPositivos(s)
    ensures Sum(s, Peso) > 0.0
  {
    assert s[0] in s;
    if |s| > 1 {
      assert forall n :: n in s[1..] ==> n in s;
      SumPesoPositive(s[1..]);
    }
  }

  /** `Σ(nota·peso) / Σ(peso)` over a non-empty list of weighted entries. */
  function WeightedMean(m: seq<Nota>): real
    requires |m| > 0 && PesosPositivos(m)
  {
    SumPesoPositive(m);
    Sum(m, Ponderada) / Sum(m, Peso)
  }

  /** `calcularPromedioMateria(materia, periodo)`: the weighted mean of the matching
      entries, and 0 when there are none. */
  function PromedioMateria(notas: seq<Nota>, materia: string, periodo: int): (r: real)
    requires PesosPositivos(notas)
    ensures (forall n :: n in notas ==> n.materia != materia || n.periodo != periodo) ==> r == 0.0
  {
    var m := NotasMateria(notas, materia, periodo);
    if |m| == 0 then 0.0
    else
      assert m[0] in m;
      WeightedMean(m)
  }

  /** With at least one matching entry, the subject average times the total matching
      weight is the total weighted score `Σ(nota·peso)` of the matching entries. */
  lemma PromedioMateriaWeighted(notas: seq<Nota>, materia: string, periodo: int)
    requires PesosPositivos(notas)
    requires exists n :: n in notas && n.materia == materia && n.periodo == periodo
    ensures var m := NotasMateria(notas, materia, periodo);
            Sum(m, Peso) > 0.0 &&
            PromedioMateria(notas, materia, periodo) * Sum(m, Peso) == Sum(m, Ponderada)
  {
    var m := NotasMateria(notas, materia, periodo);
    var n :| n in notas && n.materia == materia && n.periodo == periodo;
    assert n in m;
    SumPesoPositive(m);
    PromedioMateriaQuotient(notas, materia, periodo);
    QuotientIdentity(PromedioMateria(notas, materia, periodo), Sum(m, Ponderada), Sum(m, Peso));
  }

  lemma PromedioMateriaQuotient(notas: seq<Nota>, materia: string, periodo: int)
    requires PesosPositivos(notas) && |NotasMateria(notas, materia, periodo)| > 0
    ensures var m := NotasMateria(notas, materia, periodo);
            Sum(m, Peso) > 0.0 && PromedioMateria(notas, materia, periodo) == Sum(m, Ponderada) / Sum(m, Peso)
  {
    var m := NotasMateria(notas, materia, periodo);
    assert m[0] in m;
    SumPesoPositive(m);
  }

  /** Inserting an entry of another subject or period leaves the matching entries as they were. */
  lemma NotasMateriaIgnoresOthers(a: seq<Nota>, x: Nota, b: seq<Nota>, materia: string, periodo: int)
    requires x.materia != materia || x.periodo != periodo
    ensures NotasMateria(a + [x] + b, materia, periodo) == NotasMateria(a + b, materia, periodo)
  {
    var p := DeMateria(materia, periodo);
    assert !p(x);
    assert Filter([x], p) == [];
    FilterAppend(a, [x], p);
    assert Filter(a + [x], p) == Filter(a, p);
    FilterAppend(a + [x], b, p);
    FilterAppend(a, b, p);
  }

  /** Entries of another subject or another period do not contribute: inserting one
      anywhere in the list leaves the average unchanged. */
  lemma PromedioMateriaIgnoresOthers(a: seq<Nota>, x: Nota, b: seq<Nota>, materia: string, periodo: int)
    requires PesosPositivos(a + b) && x.peso > 0.0
    requires x.materia != materia || x.periodo != periodo
    ensures PesosPositivos(a + [x] + b)
    ensures PromedioMateria(a + [x] + b, materia, periodo) == PromedioMateria(a + b, materia, periodo)
  {
    forall n | n in a + [x] + b ensures n.peso > 0.0 {
      if n != x {
        assert n in a + b;
      }
    }
    NotasMateriaIgnoresOthers(a, x, b, materia, periodo);
  }

  /** The average does not depend on the order of the entries. */
  lemma PromedioMateriaPermutation(a: seq<Nota>, b: seq<Nota>, materia: string, periodo: int)
    requires PesosPositivos(a) && multiset(a) == multiset(b)
    ensures PesosPositivos(b)
    ensures PromedioMateria(a, materia, periodo) == PromedioMateria(b, materia, periodo)
  {
    forall n | n in b ensures n.peso > 0.0 {
      assert n in multiset(b);
    }
    var p := DeMateria(materia, periodo);
    FilterPermutation(a, b, p);
    var ma, mb := Filter(a, p), Filter(b, p);
    if |ma| != 0 {
      assert |mb| == |multiset(mb)| == |multiset(ma)| == |ma|;
      SumPermutation(ma, mb, Peso);
      SumPermutation(ma, mb, Ponderada);
    } else {
      assert |mb| == |multiset(mb)| == |multiset(ma)| == 0;
    }
  }

  /** The total weighted score is at least the smallest allowed score times the total weight. */
  lemma {:induction false} WeightedSumLower(s: seq<Nota>, lo: real)
    requires forall i :: 0 <= i < |s| ==> s[i].peso > 0.0 && lo <= s[i].nota
    ensures lo * Sum(s, Peso) <= Sum(s, Ponderada)
  {
    if |s| > 0 {
      WeightedSumLower(s[1..], lo);
      var w, a := Sum(s[1..], Peso), Sum(s[1..], Ponderada);
      var x, p := s[0].nota, s[0].peso;
      MulNonNegative(x - lo, p);
      assert lo * (p + w) <= x * p + a;
    }
  }

  /** The total weighted score is at most the largest allowed score times the total weight. */
  lemma {:induction false} WeightedSumUpper(s: seq<Nota>, hi: real)
    requires forall i :: 0 <= i < |s| ==> s[i].peso > 0.0 && s[i].nota <= hi
    ensures Sum(s, Ponderada) <= hi * Sum(s, Peso)
  {
    if |s| > 0 {
      WeightedSumUpper(s[1..], hi);
      var w, a := Sum(s[1..], Peso), Sum(s[1..], Ponderada);
      var x, p := s[0].nota, s[0].peso;
      MulNonNegative(hi - x, p);
      assert x * p + a <= hi * (p + w);
    }
  }

  lemma WeightedSumsBetween(m: seq<Nota>, lo: real, hi: real)
    requires |m| > 0 && PesosPositivos(m) && NotasEntre(m, lo, hi)
    ensures Sum(m, Peso) > 0.0
    ensures lo * Sum(m, Peso) <= Sum(m, Ponderada) <= hi * Sum(m, Peso)
  {
    assert forall i :: 0 <= i < |m| ==> m[i] in m;
    WeightedSumLower(m, lo);
    WeightedSumUpper(m, hi);
    SumPesoPositive(m);
  }

  /** A weighted mean lies in any interval that holds all of its scores. */
  lemma WeightedMeanBounds(m: seq<Nota>, lo: real, hi: real)
    requires |m| > 0 && PesosPositivos(m) && NotasEntre(m, lo, hi)
    ensures lo <= WeightedMean(m) <= hi
  {
    var num, den := Sum(m, Ponderada), Sum(m, Peso);
    WeightedSumsBetween(m, lo, hi);
    QuotientBounds(num, den, lo, hi);
  }

  /** The smallest score of a non-empty list of entries. */
  function MinNota(s: seq<Nota>): (r: real)
    requires |s| > 0
    ensures exists n :: n in s && n.nota == r
    ensures forall n :: n in s ==> r <= n.nota
  {
    if |s| == 1 then s[0].nota
    else
      var m := MinNota(s[1..]);
      assert forall n :: n in s ==> n == s[0] || n in s[1..];
      if s[0].nota <= m then s[0].nota else m
  }

  /** The largest score of a non-empty list of entries. */
  function MaxNota(s: seq<Nota>): (r: real)
    requires |s| > 0
    ensures exists n :: n in s && n.nota == r
    ensures forall n :: n in s ==> n.nota <= r
  {
    if |s| == 1 then s[0].nota
    else
      var m := MaxNota(s[1..]);
      assert forall n :: n in s ==> n == s[0] || n in s[1..];
      if s[0].nota >= m then s[0].nota else m
  }

  /** A subject average with matching entries lies between the smallest and the largest
      matching score. */
  lemma PromedioMateriaBounds(notas: seq<Nota>, materia: string, periodo: int)
    requires PesosPositivos(notas)
    requires |NotasMateria(notas, materia, periodo)| > 0
    ensures var m := NotasMateria(notas, materia, periodo);
            MinNota(m) <= PromedioMateria(notas, materia, periodo) <= MaxNota(m)
  {
    var m := NotasMateria(notas, materia, periodo);
    assert PesosPositivos(m);
    WeightedMeanBounds(m, MinNota(m), MaxNota(m));
  }

  /** Any interval that holds every score holds every subject average, or the average
      is the 0 of a subject without entries in the period. */
  lemma PromedioMateriaWithin(notas: seq<Nota>, materia: string, periodo: int, lo: real, hi: real)
    requires PesosPositivos(notas) && NotasEntre(notas, lo, hi)
    ensures var r := PromedioMateria(notas, materia, periodo);
            (lo <= r <= hi) || (r == 0.0 && |NotasMateria(notas, materia, periodo)| == 0)
  {
    var m := NotasMateria(notas, materia, periodo);
    if |m| > 0 {
      assert PesosPositivos(m) && NotasEntre(m, lo, hi);
      WeightedMeanBounds(m, lo, hi);
    }
  }

  /** `notasMock.map(n => n.materia)`. */
  function MateriasDe(notas: seq<Nota>): (r: seq<string>)
    ensures |r| == |notas|
    ensures forall i :: 0 <= i < |notas| ==> r[i] == notas[i].materia
    ensures forall m :: m in r <==> exists n :: n in notas && n.materia == m
  {
    if |notas| == 0 then []
    else
      var rest := MateriasDe(notas[1..]);
      assert forall n :: n in notas ==> n == notas[0] || n in notas[1..];
      [notas[0].materia] + rest
  }

  /** `materias`: the subjects of the entries, each once, in first-occurrence order. */
  function Materias(notas: seq<Nota>): (r: seq<string>)
    ensures NoDuplicates(r)
    ensures forall m :: m in r <==> exists n :: n in notas && n.materia == m
    ensures |r| == 0 <==> |notas| == 0
    ensures forall m :: m in r <==> m in MateriasDe(notas)
    ensures forall i, j :: 0 <= i < j < |r| ==> FirstIndex(MateriasDe(notas), r[i]) < FirstIndex(MateriasDe(notas), r[j])
  {
    var names := MateriasDe(notas);
    assert |notas| > 0 ==> names[0] in names;
    Distinct(names)
  }

  /** The same list as `new Set(...)` builds it: one pass over the entries that appends a
      subject the first time it is seen. */
  method MateriasUnicas(notas: seq<Nota>) returns (ms: seq<string>)
    ensures ms == Materias(notas)
  {
    ms := [];
    var seen: set<string> := {};
    var names := MateriasDe(notas);
    var i := 0;
    while i < |notas|
      invariant 0 <= i <= |notas|
      invariant ms == Distinct(names[..i])
      invariant seen == set m | m in ms
    {
      assert names[..i + 1][..i] == names[..i];
      if notas[i].materia !in seen {
        ms := ms + [notas[i].materia];
        seen := seen + {notas[i].materia};
      }
      i := i + 1;
    }
    assert names[..|notas|] == names;
  }

  /** `materias.map(m => calcularPromedioMateria(m, periodo))`. */
  function Promedios(notas: seq<Nota>, materias: seq<string>, periodo: int): (r: seq<real>)
    requires PesosPositivos(notas)
    ensures |r| == |materias|
    ensures forall i :: 0 <= i < |r| ==> r[i] == PromedioMateria(notas, materias[i], periodo)
  {
    seq(|materias|, i requires 0 <= i < |materias| => PromedioMateria(notas, materias[i], periodo))
  }

  /** `calcularPromedioGeneral(periodo)`: the unweighted mean of the subject averages over
      every subject that appears in the entries, in any period. */
  function PromedioGeneral(notas: seq<Nota>, periodo: int): real
    requires PesosPositivos(notas) && |notas| > 0
  {
    Mean(Promedios(notas, Materias(notas), periodo))
  }

  /** Scores in `[0, hi]` give an overall average in `[0, hi]`. Subjects without entries in
      the period count as 0, so the lower bound is 0 and not the smallest score. */
  lemma PromedioGeneralBounds(notas: seq<Nota>, periodo: int, hi: real)
    requires PesosPositivos(notas) && |notas| > 0 && NotasEntre(notas, 0.0, hi)
    ensures 0.0 <= PromedioGeneral(notas, periodo) <= hi
  {
    assert notas[0] in notas;
    var xs := Promedios(notas, Materias(notas), periodo);
    forall i | 0 <= i < |xs| ensures 0.0 <= xs[i] <= hi {
      PromedioMateriaWithin(notas, Materias(notas)[i], periodo, 0.0, hi);
    }
    MeanBounds(xs, 0.0, hi);
  }

  lemma {:induction false} MateriasDeAppend(notas: seq<Nota>, x: Nota)
    ensures MateriasDe(notas + [x]) == MateriasDe(notas) + [x.materia]
  {
  }

  /** The subject averages after adding the first entry of a new subject in another period:
      the old averages, followed by a 0 for the new subject. */
  lemma PromediosNewSubject(notas: seq<Nota>, x: Nota, periodo: int)
    requires PesosPositivos(notas) && x.peso > 0.0
    requires x.periodo != periodo
    requires forall n :: n in notas ==> n.materia != x.materia
    ensures PesosPositivos(notas + [x])
    ensures Materias(notas + [x]) == Materias(notas) + [x.materia]
    ensures Promedios(notas + [x], Materias(notas + [x]), periodo)
         == Promedios(notas, Materias(notas), periodo) + [0.0]
  {
    var ms := Materias(notas);
    var all := notas + [x];
    assert PesosPositivos(all);
    MateriasDeAppend(notas, x);
    var names := MateriasDe(notas);
    assert x.materia !in names;
    assert (names + [x.materia])[..|names|] == names;
    assert Materias(all) == ms + [x.materia];
    var before := Promedios(notas, ms, periodo);
    var after := Promedios(all, ms + [x.materia], periodo);
    forall i | 0 <= i < |ms| ensures after[i] == before[i] {
      assert ms[i] in ms;
      PromedioMateriaIgnoresOthers(notas, x, [], ms[i], periodo);
      assert notas + [x] + [] == all && notas + [] == notas;
    }
    assert after[|ms|] == 0.0;
    assert after == before + [0.0];
  }

  /** A subject that has entries only outside the period still counts: adding the first
      entry of a new subject in another period adds one subject to the count, adds
      nothing to the total of the averages, and so appends a 0 to the averaged list. */
  lemma PromedioGeneralNewSubject(notas: seq<Nota>, x: Nota, periodo: int)
    requires PesosPositivos(notas) && |notas| > 0 && x.peso > 0.0
    requires x.periodo != periodo
    requires forall n :: n in notas ==> n.materia != x.materia
    ensures PesosPositivos(notas + [x])
    ensures |Materias(notas + [x])| == |Materias(notas)| + 1
    ensures Sum(Promedios(notas + [x], Materias(notas + [x]), periodo), Identity)
         == Sum(Promedios(notas, Materias(notas), periodo), Identity)
    ensures PromedioGeneral(notas + [x], periodo) == Mean(Promedios(notas, Materias(notas), periodo) + [0.0])
  {
    PromediosNewSubject(notas, x, periodo);
    var before := Promedios(notas, Materias(notas), periodo);
    SumAppend(before, [0.0], Identity);
    assert Sum([0.0], Identity) == 0.0;
  }

  /** Performance tier returned by `getTendencia`. */
  datatype Tendencia = Excelente | Aceptable | NecesitaMejorar

  /** Colour classes used with the tiers: green, orange and red. */
  datatype Color = Verde | Naranja | Rojo

  /** `getTendencia`: a boundary value belongs to the higher tier. */
  function GetTendencia(promedio: real): (t: Tendencia)
    ensures t == Excelente <==> promedio >= 4.0
    ensures t == Aceptable <==> 3.5 <= promedio < 4.0
    ensures t == NecesitaMejorar <==> promedio < 3.5
  {
    if promedio >= 4.0 then Excelente
    else if promedio >= 3.5 then Aceptable
    else NecesitaMejorar
  }

  /** The colour `getTendencia` returns with each tier. */
  function ColorTendencia(t: Tendencia): Color {
    match t
    case Excelente => Verde
    case Aceptable => Naranja
    case NecesitaMejorar => Rojo
  }

  /** The label `getTendencia` returns with each tier. */
  function TextoTendencia(t: Tendencia): string {
    match t
    case Excelente => "Excelente"
    case Aceptable => "Aceptable"
    case NecesitaMejorar => "Necesita mejorar"
  }

  /** `getColorNota`, the same threshold chain written a second time (the progress bars
      repeat it once more inline): the colour of a grade is always the colour of its tier. */
  function GetColorNota(nota: real): (c: Color)
    ensures c == ColorTendencia(GetTendencia(nota))
  {
    if nota >= 4.0 then Verde
    else if nota >= 3.5 then Naranja
    else Rojo
  }

  function Rango(t: Tendencia): nat {
    match t
    case NecesitaMejorar => 0
    case Aceptable => 1
    case Excelente => 2
  }

  /** A higher average never falls into a lower tier. */
  lemma TendenciaMonotonic(x: real, y: real)
    requires x <= y
    ensures Rango(GetTendencia(x)) <= Rango(GetTendencia(y))
  {
  }

  /** The recommendations card (`promedioGeneral < 4.0`) shows exactly when the
      overall tier is not `Excelente`. */
  function MuestraRecomendaciones(promedioGeneral: real): (b: bool)
    ensures b <==> GetTendencia(promedioGeneral) != Excelente
  {
    promedioGeneral < 4.0
  }

  lemma SumOfThree(a: Nota, b: Nota, c: Nota, f: Nota -> real)
    ensures Sum([a, b, c], f) == f(a) + f(b) + f(c)
  {
    assert [a, b, c][1..] == [b, c] && [b, c][1..] == [c] && [c][1..] == [];
    assert Sum([c], f) == f(c);
    assert Sum([b, c], f) == f(b) + f(c);
  }

  lemma SeleccionTresDeCuatro(a: Nota, b: Nota, c: Nota, d: Nota, materia: string, periodo: int)
    requires a.materia == materia && b.materia == materia && c.materia == materia
    requires a.periodo == periodo && b.periodo == periodo && c.periodo == periodo && d.periodo != periodo
    ensures NotasMateria([a, b, c, d], materia, periodo) == [a, b, c]
  {
    var p := DeMateria(materia, periodo);
    assert p(a) && p(b) && p(c) && !p(d);
    assert [a, b, c, d][1..] == [b, c, d];
    assert [b, c, d][1..] == [c, d];
    assert [c, d][1..] == [d];
    assert Filter([d], p) == [];
    assert Filter([c, d], p) == [c];
    assert Filter([b, c, d], p) == [b, c];
    assert Filter([a, b, c, d], p) == [a, b, c];
  }

  /** The Matemáticas entries of the demonstration data, with their scores, weights and
      periods: `(4.5·30 + 4.2·20 + 4.8·10) / 60 = 4.45` in period 4, an Excelente; the
      period-3 exam does not count. */
  lemma PromedioMatematicasPeriodo4(a: Nota, b: Nota, c: Nota, d: Nota, materia: string)
    requires a.materia == materia && b.materia == materia && c.materia == materia && d.materia == materia
    requires a.periodo == 4 && b.periodo == 4 && c.periodo == 4 && d.periodo == 3
    requires a.nota == 4.5 && a.peso == 30.0
    requires b.nota == 4.2 && b.peso == 20.0
    requires c.nota == 4.8 && c.peso == 10.0
    requires d.nota == 3.9 && d.peso == 40.0
    ensures PesosPositivos([a, b, c, d])
    ensures PromedioMateria([a, b, c, d], materia, 4) == 4.45
    ensures GetTendencia(PromedioMateria([a, b, c, d], materia, 4)) == Excelente
  {
    SeleccionTresDeCuatro(a, b, c, d, materia, 4);
    SumOfThree(a, b, c, Peso);
    SumOfThree(a, b, c, Ponderada);
    assert Sum([a, b, c], Peso) == 60.0;
    assert Sum([a, b, c], Ponderada) == 267.0;
  }
}
