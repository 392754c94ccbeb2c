/** The "Cronológico" tab of the grade detail screen: the entries of the selected period,
    newest first. */
module Timeline {
  import opened Seqs
  import opened Grades

  /** Non-increasing dates: `sort((a, b) => fecha(b) - fecha(a))` puts the newest first. */
  ghost predicate NewestFirst(s: seq<Nota>) {
    forall i, j :: 0 <= i < j < |s| ==> s[i].fecha >= s[j].fecha
  }

  /** Puts `x` in front of the first entry that is not newer than it, so that among entries
      of equal date the one inserted later (earlier in the input) comes first. */
  function Insert(x: Nota, s: seq<Nota>): (r: seq<Nota>)
    requires NewestFirst(s)
    ensures NewestFirst(r)
    ensures multiset(r) == multiset(s) + multiset{x}
    ensures |r| == |s| + 1
    ensures r[0] == x || (|s| > 0 && r[0] == s[0])
  {
    if |s| == 0 || s[0].fecha <= x.fecha then
      [x] + s
    else
      var rest := Insert(x, s[1..]);
      assert s == [s[0]] + s[1..];
      assert s[0].fecha >= rest[0].fecha;
      [s[0]] + rest
  }

  /** An insertion sort by descending date. */
  function SortNewestFirst(s: seq<Nota>): (r: seq<Nota>)
    ensures NewestFirst(r)
    ensures multiset(r) == multiset(s)
  {
    if |s| == 0 then []
    else
      assert s == [s[0]] + s[1..];
      Insert(s[0], SortNewestFirst(s[1..]))
  }

  function DelPeriodo(periodo: int): Nota -> bool {
    (n: Nota) => n.periodo == periodo
  }

  /** `notasMock.filter(n => n.periodo === periodo).sort(...)`: the entries of the period,
      newest first. */
  function Cronologico(notas: seq<Nota>, periodo: int): (r: seq<Nota>)
    ensures NewestFirst(r)
    ensures multiset(r) == multiset(Filter(notas, DelPeriodo(periodo)))
  {
    SortNewestFirst(Filter(notas, DelPeriodo(periodo)))
  }

  /** The chronological view shows exactly the entries of the period, each as often as it
      occurs in the input, and nothing else. */
  lemma CronologicoContents(notas: seq<Nota>, periodo: int)
    ensures |Cronologico(notas, periodo)| == |Filter(notas, DelPeriodo(periodo))|
    ensures forall n :: n in Cronologico(notas, periodo) <==> n in notas && n.periodo == periodo
    ensures forall n :: multiset(Cronologico(notas, periodo))[n]
                      == if n.periodo == periodo then multiset(notas)[n] else 0
  {
    var r := Cronologico(notas, periodo);
    var f := Filter(notas, DelPeriodo(periodo));
    assert |r| == |multiset(r)| == |multiset(f)| == |f|;
    forall n ensures n in r <==> n in notas && n.periodo == periodo {
      assert n in r <==> n in multiset(r);
      assert n in f <==> n in multiset(f);
    }
    forall n ensures multiset(r)[n] == if n.periodo == periodo then multiset(notas)[n] else 0 {
      FilterCount(notas, DelPeriodo(periodo), n);
    }
  }

  /** Reordering the entries does not change the chronological view's contents. */
  lemma CronologicoPermutation(a: seq<Nota>, b: seq<Nota>, periodo: int)
    requires multiset(a) == multiset(b)
    ensures multiset(Cronologico(a, periodo)) == multiset(Cronologico(b, periodo))
  {
    FilterPermutation(a, b, DelPeriodo(periodo));
  }
}
