/** The notification list of the alerts screen: read state, the unread count, the
    "all / unread" switch and the category tabs. */
module Alerts {
  import opened Seqs

  datatype TipoAlerta = Urgente | Importante | Info

  datatype Categoria = Academico | Administrativo | Evento | Mensaje

  datatype Alerta = Alerta(
    id: string,
    tipo: TipoAlerta,
    categoria: Categoria,
    titulo: string,
    descripcion: string,
    fecha: string,
    leido: bool)

  /** The switch in the header: every alert, or only the unread ones. */
  datatype Filtro = Todas | NoLeidas

  /** The four tabs; there is no tab for `Mensaje`. */
  datatype Pestana = PestanaTodas | PestanaAcademico | PestanaEvento | PestanaAdmin

  function NoLeida(a: Alerta): bool {
    !a.leido
  }

  /** `alertas.filter(a => !a.leido).length`. */
  function CuentaNoLeidas(alertas: seq<Alerta>): (n: nat)
    ensures n <= |alertas|
    ensures n == 0 <==> forall i :: 0 <= i < |alertas| ==> alertas[i].leido
  {
    var r := Filter(alertas, NoLeida);
    assert forall i :: 0 <= i < |alertas| && !alertas[i].leido ==> alertas[i] in r;
    assert |r| > 0 ==> r[0] in alertas && !r[0].leido;
    |r|
  }

  /** The count adds up over a split list and counts one per unread alert, so it is
      exactly the number of alerts with `leido == false`. */
  lemma CuentaNoLeidasAppend(a: seq<Alerta>, b: seq<Alerta>, x: Alerta)
    ensures CuentaNoLeidas(a + b) == CuentaNoLeidas(a) + CuentaNoLeidas(b)
    ensures CuentaNoLeidas([x]) == if x.leido then 0 else 1
  {
    FilterAppend(a, b, NoLeida);
    assert [x][1..] == [];
  }

  /** Clicking an alert: `alertas.map(a => a.id === id ? { ...a, leido: true } : a)`. */
  function MarcarComoLeida(alertas: seq<Alerta>, id: string): (r: seq<Alerta>)
    ensures |r| == |alertas|
    ensures forall i :: 0 <= i < |r| ==> r[i].leido == (alertas[i].leido || alertas[i].id == id)
    ensures forall i :: 0 <= i < |r| ==> r[i] == alertas[i].(leido := r[i].leido)
  {
    if |alertas| == 0 then []
    else
      var a := alertas[0];
      [if a.id == id then a.(leido := true) else a] + MarcarComoLeida(alertas[1..], id)
  }

  /** "Marcar todas como leídas": `alertas.map(a => ({ ...a, leido: true }))`. */
  function MarcarTodasLeidas(alertas: seq<Alerta>): (r: seq<Alerta>)
    ensures |r| == |alertas|
    ensures forall i :: 0 <= i < |r| ==> r[i].leido && r[i] == alertas[i].(leido := true)
    ensures CuentaNoLeidas(r) == 0
  {
    if |alertas| == 0 then []
    else [alertas[0].(leido := true)] + MarcarTodasLeidas(alertas[1..])
  }

  /** Clicking the same alert twice has the effect of clicking it once. */
  lemma {:induction false} MarcarComoLeidaIdempotent(alertas: seq<Alerta>, id: string)
    ensures MarcarComoLeida(MarcarComoLeida(alertas, id), id) == MarcarComoLeida(alertas, id)
  {
    if |alertas| != 0 {
      MarcarComoLeidaIdempotent(alertas[1..], id);
    }
  }

  lemma CuentaNoLeidasCons(x: Alerta, s: seq<Alerta>)
    ensures CuentaNoLeidas([x] + s) == (if x.leido then 0 else 1) + CuentaNoLeidas(s)
  {
    CuentaNoLeidasAppend([x], s, x);
  }

  /** Marking one alert read never raises the unread count; it lowers it exactly when an
      unread alert carries that id. */
  lemma {:induction false} MarcarComoLeidaCuenta(alertas: seq<Alerta>, id: string)
    ensures CuentaNoLeidas(MarcarComoLeida(alertas, id)) <= CuentaNoLeidas(alertas)
    ensures CuentaNoLeidas(MarcarComoLeida(alertas, id)) < CuentaNoLeidas(alertas)
        <==> exists i :: 0 <= i < |alertas| && alertas[i].id == id && !alertas[i].leido
  {
    if |alertas| != 0 {
      var a, t := alertas[0], alertas[1..];
      var m0 := if a.id == id then a.(leido := true) else a;
      MarcarComoLeidaCuenta(t, id);
      assert alertas == [a] + t;
      assert MarcarComoLeida(alertas, id) == [m0] + MarcarComoLeida(t, id);
      CuentaNoLeidasCons(a, t);
      CuentaNoLeidasCons(m0, MarcarComoLeida(t, id));
      if exists i :: 0 <= i < |alertas| && alertas[i].id == id && !alertas[i].leido {
        var i :| 0 <= i < |alertas| && alertas[i].id == id && !alertas[i].leido;
        if i > 0 {
          assert t[i - 1] == alertas[i];
        }
      }
      if exists i :: 0 <= i < |t| && t[i].id == id && !t[i].leido {
        var i :| 0 <= i < |t| && t[i].id == id && !t[i].leido;
        assert alertas[i + 1] == t[i];
      }
    }
  }

  /** Marking everything read absorbs an earlier single mark. */
  lemma {:induction false} MarcarTodasLeidasAbsorbe(alertas: seq<Alerta>, id: string)
    ensures MarcarTodasLeidas(MarcarComoLeida(alertas, id)) == MarcarTodasLeidas(alertas)
  {
    if |alertas| != 0 {
      MarcarTodasLeidasAbsorbe(alertas[1..], id);
      assert MarcarComoLeida(alertas, id)[1..] == MarcarComoLeida(alertas[1..], id);
    }
  }

  /** Once everything is read, marking everything or any single alert again changes nothing. */
  lemma {:induction false} MarcarTodasLeidasFinal(alertas: seq<Alerta>, id: string)
    ensures MarcarTodasLeidas(MarcarTodasLeidas(alertas)) == MarcarTodasLeidas(alertas)
    ensures MarcarComoLeida(MarcarTodasLeidas(alertas), id) == MarcarTodasLeidas(alertas)
  {
    if |alertas| != 0 {
      MarcarTodasLeidasFinal(alertas[1..], id);
      assert MarcarTodasLeidas(alertas)[1..] == MarcarTodasLeidas(alertas[1..]);
    }
  }

  /** `alertasFiltradas`: the list as is, or its unread alerts. */
  function AlertasFiltradas(alertas: seq<Alerta>, filtro: Filtro): (r: seq<Alerta>)
    ensures filtro == Todas ==> r == alertas
    ensures filtro == NoLeidas ==>
      |r| == CuentaNoLeidas(alertas) &&
      forall a :: a in r <==> a in alertas && !a.leido
  {
    match filtro
    case Todas => alertas
    case NoLeidas => Filter(alertas, NoLeida)
  }

  /** The unread view keeps every unread alert, as often as it occurs, in its original
      order, and nothing else. */
  lemma NoLeidasOrden(alertas: seq<Alerta>)
    ensures Subsequence(AlertasFiltradas(alertas, NoLeidas), alertas)
    ensures forall a :: multiset(AlertasFiltradas(alertas, NoLeidas))[a]
                      == if a.leido then 0 else multiset(alertas)[a]
  {
    FilterSubsequence(alertas, NoLeida);
    forall a ensures multiset(AlertasFiltradas(alertas, NoLeidas))[a]
                     == if a.leido then 0 else multiset(alertas)[a] {
      FilterCount(alertas, NoLeida, a);
    }
  }

  function DeCategoria(c: Categoria): Alerta -> bool {
    (a: Alerta) => a.categoria == c
  }

  /** The alerts a tab lists: the filtered list, narrowed to the tab's category, with each
      alert of that category kept as often as it occurs there. */
  function ContenidoPestana(alertas: seq<Alerta>, filtro: Filtro, pestana: Pestana): (r: seq<Alerta>)
    ensures pestana == PestanaTodas ==> r == AlertasFiltradas(alertas, filtro)
    ensures pestana == PestanaAcademico ==>
      forall a :: a in r <==> a in AlertasFiltradas(alertas, filtro) && a.categoria == Academico
    ensures pestana == PestanaEvento ==>
      forall a :: a in r <==> a in AlertasFiltradas(alertas, filtro) && a.categoria == Evento
    ensures pestana == PestanaAdmin ==>
      forall a :: a in r <==> a in AlertasFiltradas(alertas, filtro) && a.categoria == Administrativo
    ensures pestana == PestanaAcademico ==>
      forall a :: multiset(r)[a] == if a.categoria == Academico then multiset(AlertasFiltradas(alertas, filtro))[a] else 0
    ensures pestana == PestanaEvento ==>
      forall a :: multiset(r)[a] == if a.categoria == Evento then multiset(AlertasFiltradas(alertas, filtro))[a] else 0
    ensures pestana == PestanaAdmin ==>
      forall a :: multiset(r)[a] == if a.categoria == Administrativo then multiset(AlertasFiltradas(alertas, filtro))[a] else 0
  {
    var base := AlertasFiltradas(alertas, filtro);
    match pestana
    case PestanaTodas => base
    case PestanaAcademico =>
      FilterMultiplicity(base, DeCategoria(Academico));
      Filter(base, DeCategoria(Academico))
    case PestanaEvento =>
      FilterMultiplicity(base, DeCategoria(Evento));
      Filter(base, DeCategoria(Evento))
    case PestanaAdmin =>
      FilterMultiplicity(base, DeCategoria(Administrativo));
      Filter(base, DeCategoria(Administrativo))
  }

  /** Every tab lists an order-preserving sublist of the filtered alerts, and a message
      alert is listed only under "Todas". */
  lemma PestanaSublista(alertas: seq<Alerta>, filtro: Filtro, pestana: Pestana)
    ensures Subsequence(ContenidoPestana(alertas, filtro, pestana), AlertasFiltradas(alertas, filtro))
    ensures pestana != PestanaTodas ==>
      forall i :: 0 <= i < |ContenidoPestana(alertas, filtro, pestana)| ==>
        ContenidoPestana(alertas, filtro, pestana)[i].categoria != Mensaje
  {
    var base := AlertasFiltradas(alertas, filtro);
    match pestana
    case PestanaTodas => SubsequenceRefl(base);
    case PestanaAcademico => FilterSubsequence(base, DeCategoria(Academico));
    case PestanaEvento => FilterSubsequence(base, DeCategoria(Evento));
    case PestanaAdmin => FilterSubsequence(base, DeCategoria(Administrativo));
  }

  /** The "mark all read" button is offered exactly while some alert is unread. */
  function MostrarMarcarTodas(alertas: seq<Alerta>): (b: bool)
    ensures b <==> exists i :: 0 <= i < |alertas| && !alertas[i].leido
  {
    CuentaNoLeidas(alertas) > 0
  }

  /** The "all caught up" card of the "Todas" tab appears exactly when the filtered list is
      empty; in the unread view that means no alert is unread. */
  function TodoAlDia(alertas: seq<Alerta>, filtro: Filtro): (b: bool)
    ensures filtro == NoLeidas ==> (b <==> !MostrarMarcarTodas(alertas))
    ensures filtro == Todas ==> (b <==> |alertas| == 0)
  {
    |AlertasFiltradas(alertas, filtro)| == 0
  }
}
