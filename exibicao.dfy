/** Display helpers of the task list: the sort comparator (pending before
    completed, then alta > media > baixa), the in-place sort it drives, the
    priority icon and the capitalised priority label. */
module Exibicao {
  import opened Entidades

  /** The comparator's weight table { alta: 3, media: 2, baixa: 1 };
      None for a priority with no numeric weight in it (`undefined`, or an
      inherited member such as `toString`); the difference is NaN either way. */
  function Peso(p: string): (w: Option<int>)
    ensures w.Some? ==> 1 <= w.value <= 3
    ensures w.None? <==> p != "alta" && p != "media" && p != "baixa"
  {
    if p == "alta" then Some(3)
    else if p == "media" then Some(2)
    else if p == "baixa" then Some(1)
    else None
  }

  /** The sort comparator of the task list. A negative result puts `a`
      first. When a priority is missing from the weight table the subtraction
      is NaN, which Array.prototype.sort reads as 0 (the two are tied). */
  function Comparar(a: Tarefa, b: Tarefa): (c: int)
    reads a, b
    ensures -2 <= c <= 2
    ensures a.concluida != b.concluida ==> (if a.concluida then c > 0 else c < 0)
    ensures a.concluida == b.concluida && Peso(a.prioridade).Some? && Peso(b.prioridade).Some? ==>
      && (c < 0 <==> Peso(a.prioridade).value > Peso(b.prioridade).value)
      && (c > 0 <==> Peso(a.prioridade).value < Peso(b.prioridade).value)
    ensures a.concluida == b.concluida && (Peso(a.prioridade).None? || Peso(b.prioridade).None?) ==> c == 0
  {
    if a.concluida != b.concluida then (if a.concluida then 1 else -1)
    else match (Peso(a.prioridade), Peso(b.prioridade))
      case (Some(pa), Some(pb)) => pb - pa
      case _ => 0
  }

  /** Swapping the arguments negates the comparator, and a task ties with
      itself. */
  lemma CompararAntissimetrico(a: Tarefa, b: Tarefa)
    ensures Comparar(b, a) == -Comparar(a, b)
    ensures Comparar(a, a) == 0
  {
  }

  predicate Conhecida(t: Tarefa)
    reads t
  {
    Peso(t.prioridade).Some?
  }

  /** Every task of `s` has one of the three priorities of the weight table. */
  predicate Conhecidas(s: seq<Tarefa>)
    reads s
  {
    forall i :: 0 <= i < |s| ==> Conhecida(s[i])
  }

  /** The display rank of a task: 0-3 while pending, 4-7 once completed, and
      within each half alta, media, baixa, then any other priority. */
  function Chave(t: Tarefa): (k: nat)
    reads t
    ensures k < 8
    ensures k < 4 <==> !t.concluida
    ensures k % 4 == 3 <==> !Conhecida(t)
  {
    (if t.concluida then 4 else 0) + (match Peso(t.prioridade) case Some(w) => 3 - w case None => 3)
  }

  /** The comparator only ever strictly orders tasks of different ranks, in
      the rank's direction; between tasks of known priority it orders them
      exactly as their ranks do. */
  lemma ChaveRespeitaComparar(a: Tarefa, b: Tarefa)
    ensures Comparar(a, b) > 0 ==> Chave(a) > Chave(b)
    ensures Comparar(a, b) < 0 ==> Chave(a) < Chave(b)
    ensures Conhecida(a) && Conhecida(b) ==> (Comparar(a, b) > 0 <==> Chave(a) > Chave(b))
    ensures Conhecida(a) && Conhecida(b) ==> (Comparar(a, b) == 0 <==> Chave(a) == Chave(b))
  {
  }

  /** Ranks recorded per task. The sort reads the tasks only through the
      comparator and changes none of their fields, so the ranks recorded
      before it starts hold throughout. */
  type Postos = map<Tarefa, nat>

  /** The rank `k` records for `t` (0 for a task it does not hold). */
  function Posto(k: Postos, t: Tarefa): nat {
    if t in k then k[t] else 0
  }

  /** The ranks of exactly the tasks of `s`. */
  ghost function PostosDe(s: seq<Tarefa>): (k: Postos)
    reads s
    ensures k.Keys == set t | t in s
    ensures Registra(k)
  {
    map t | t in s :: Chave(t)
  }

  /** `k` holds the current rank of every task it maps. */
  ghost predicate Registra(k: Postos)
    reads k.Keys
  {
    forall t :: t in k ==> k[t] == Chave(t)
  }

  /** Every task of `s` has a rank in `k`. */
  predicate Cobre(s: seq<Tarefa>, k: Postos) {
    forall i :: 0 <= i < |s| ==> s[i] in k
  }

  /** No rank in `k` is that of a priority outside the weight table. */
  predicate PostosConhecidos(k: Postos) {
    forall t :: t in k ==> k[t] % 4 != 3
  }

  lemma ConhecidasPostos(s: seq<Tarefa>)
    requires Conhecidas(s)
    ensures PostosConhecidos(PostosDe(s))
  {
    var k := PostosDe(s);
    forall t | t in k ensures k[t] % 4 != 3 {
      var i :| 0 <= i < |s| && s[i] == t;
      assert Conhecida(s[i]);
    }
  }

  /** The tasks of `s` whose rank in `k` is `g`, in their order in `s`. */
  function Grupo(s: seq<Tarefa>, k: Postos, g: nat): seq<Tarefa> {
    if s == [] then []
    else (if Posto(k, s[0]) == g then [s[0]] else []) + Grupo(s[1..], k, g)
  }

  /** Ranks never decrease along `s`. */
  predicate Ordenada(s: seq<Tarefa>, k: Postos) {
    forall i, j :: 0 <= i < j < |s| ==> Posto(k, s[i]) <= Posto(k, s[j])
  }

  /** Each rank's tasks appear in `r` in the same order as in `s`. */
  ghost predicate MesmosGrupos(r: seq<Tarefa>, s: seq<Tarefa>, k: Postos) {
    forall g :: Grupo(r, k, g) == Grupo(s, k, g)
  }

  /** `r` is a display ordering of `s`: always the same tasks. When every
      priority is one the comparator knows, also the tasks of each rank in
      their original relative order (a stable sort) and ranks in
      non-decreasing order. With any other priority the comparator is not
      consistent and `sort` promises no particular order. */
  ghost predicate OrdemDeExibicao(r: seq<Tarefa>, s: seq<Tarefa>)
    reads s
  {
    var k := PostosDe(s);
    && multiset(r) == multiset(s)
    && (Conhecidas(s) ==> MesmosGrupos(r, s, k) && Ordenada(r, k))
  }

  /** What a display ordering of tasks of known priority looks like through
      the comparator: every task is placed no later than every task the
      comparator puts after it, so pending tasks come first and, within each
      status, higher priorities first. */
  lemma OrdemDeExibicaoSegueComparador(r: seq<Tarefa>, s: seq<Tarefa>)
    requires OrdemDeExibicao(r, s) && Conhecidas(s)
    ensures forall i, j :: 0 <= i < j < |r| ==> Comparar(r[i], r[j]) <= 0
    ensures forall i, j :: 0 <= i < j < |r| && r[i].concluida ==> r[j].concluida
  {
    var k := PostosDe(s);
    forall i, j | 0 <= i < j < |r| ensures Comparar(r[i], r[j]) <= 0 && (r[i].concluida ==> r[j].concluida) {
      assert r[i] in multiset(s) && r[j] in multiset(s);
      assert k[r[i]] == Chave(r[i]) && k[r[j]] == Chave(r[j]);
      assert Posto(k, r[i]) <= Posto(k, r[j]);
      var p :| 0 <= p < |s| && s[p] == r[i];
      var q :| 0 <= q < |s| && s[q] == r[j];
      assert Conhecida(s[p]) && Conhecida(s[q]);
      ChaveRespeitaComparar(r[i], r[j]);
    }
  }

  lemma {:induction false} GrupoConcatena(s: seq<Tarefa>, u: seq<Tarefa>, k: Postos, g: nat)
    ensures Grupo(s + u, k, g) == Grupo(s, k, g) + Grupo(u, k, g)
  {
    if s == [] {
      assert s + u == u;
    } else {
      assert (s + u)[1..] == s[1..] + u;
      GrupoConcatena(s[1..], u, k, g);
    }
  }

  lemma GrupoDeTres(antes: seq<Tarefa>, meio: seq<Tarefa>, depois: seq<Tarefa>, k: Postos, g: nat)
    ensures Grupo(antes + meio + depois, k, g) == Grupo(antes, k, g) + Grupo(meio, k, g) + Grupo(depois, k, g)
  {
    GrupoConcatena(antes + meio, depois, k, g);
    GrupoConcatena(antes, meio, k, g);
  }

  /** Two tasks of different rank never share a group, so their order
      within a pair does not matter to any group. */
  lemma GrupoDoPar(x: Tarefa, y: Tarefa, k: Postos, g: nat)
    requires Posto(k, x) != Posto(k, y)
    ensures Grupo([x, y], k, g) == Grupo([y, x], k, g)
  {
    assert [x, y][1..] == [y] && [y, x][1..] == [x];
    assert [y][1..] == [] && [x][1..] == [];
  }

  /** Swapping two neighbours of different rank leaves every rank's group,
      and so the relative order of tied tasks, as it was. */
  lemma TrocaPreservaGrupos(s: seq<Tarefa>, k: Postos, j: int)
    requires 0 < j < |s|
    requires Posto(k, s[j - 1]) != Posto(k, s[j])
    ensures MesmosGrupos(s[j - 1 := s[j]][j := s[j - 1]], s, k)
  {
    var t := s[j - 1 := s[j]][j := s[j - 1]];
    var antes, depois := s[..j - 1], s[j + 1..];
    var x, y := s[j - 1], s[j];
    assert s == antes + [x, y] + depois;
    assert t == antes + [y, x] + depois;
    forall g ensures Grupo(t, k, g) == Grupo(s, k, g) {
      GrupoDeTres(antes, [x, y], depois, k, g);
      GrupoDeTres(antes, [y, x], depois, k, g);
      GrupoDoPar(x, y, k, g);
    }
  }

  lemma MesmosGruposTransitivo(a: seq<Tarefa>, b: seq<Tarefa>, c: seq<Tarefa>, k: Postos)
    requires MesmosGrupos(a, b, k) && MesmosGrupos(b, c, k)
    ensures MesmosGrupos(a, c, k)
  {
  }

  /** The group of rank `g` of a list whose head is `x`. */
  lemma GrupoComPrimeiro(x: Tarefa, resto: seq<Tarefa>, k: Postos, g: nat)
    ensures Grupo([x] + resto, k, g) == (if Posto(k, x) == g then [x] else []) + Grupo(resto, k, g)
  {
    var u := [x] + resto;
    assert u[0] == x && u[1..] == resto;
  }

  /** A non-empty list has a non-empty group: the one of its head's rank. */
  lemma CabecaNoGrupo(s: seq<Tarefa>, k: Postos)
    ensures s != [] ==> Grupo(s, k, Posto(k, s[0])) != []
  {
  }

  /** A non-empty group has a task of its rank in the list. */
  lemma {:induction false} GrupoNaoVazio(s: seq<Tarefa>, k: Postos, g: nat)
    requires Grupo(s, k, g) != []
    ensures exists i :: 0 <= i < |s| && Posto(k, s[i]) == g
  {
    if Posto(k, s[0]) != g {
      GrupoNaoVazio(s[1..], k, g);
      var i :| 0 <= i < |s[1..]| && Posto(k, s[1..][i]) == g;
      assert s[i + 1] == s[1..][i];
    }
  }

  /** Two lists in rank order with the same group for every rank are the
      same list. */
  lemma {:induction false} OrdenadasIguais(r1: seq<Tarefa>, r2: seq<Tarefa>, k: Postos)
    requires Ordenada(r1, k) && Ordenada(r2, k)
    requires forall g :: Grupo(r1, k, g) == Grupo(r2, k, g)
    ensures r1 == r2
    decreases |r1|
  {
    if r1 == [] || r2 == [] {
      // An empty list has only empty groups, and a non-empty one does not.
      CabecaNoGrupo(r1, k);
      CabecaNoGrupo(r2, k);
    } else {
      var x1, x2 := r1[0], r2[0];
      var t1, t2 := r1[1..], r2[1..];
      assert r1 == [x1] + t1 && r2 == [x2] + t2;
      var m1, m2 := Posto(k, x1), Posto(k, x2);
      GrupoComPrimeiro(x1, t1, k, m1);
      GrupoComPrimeiro(x2, t2, k, m2);
      // Each head's rank occurs in the other list, whose head ranks lowest.
      assert m2 <= m1 by {
        GrupoNaoVazio(r2, k, m1);
      }
      assert m1 <= m2 by {
        GrupoNaoVazio(r1, k, m2);
      }
      assert Grupo(r1, k, m1)[0] == x1 && Grupo(r2, k, m1)[0] == x2;
      forall i, j | 0 <= i < j < |t1| ensures Posto(k, t1[i]) <= Posto(k, t1[j]) {
        assert t1[i] == r1[i + 1] && t1[j] == r1[j + 1];
      }
      forall i, j | 0 <= i < j < |t2| ensures Posto(k, t2[i]) <= Posto(k, t2[j]) {
        assert t2[i] == r2[i + 1] && t2[j] == r2[j + 1];
      }
      forall g ensures Grupo(t1, k, g) == Grupo(t2, k, g) {
        GrupoComPrimeiro(x1, t1, k, g);
        GrupoComPrimeiro(x1, t2, k, g);
        var p := if m1 == g then [x1] else [];
        assert Grupo(t1, k, g) == (p + Grupo(t1, k, g))[|p|..];
        assert Grupo(t2, k, g) == (p + Grupo(t2, k, g))[|p|..];
      }
      OrdenadasIguais(t1, t2, k);
    }
  }

  /** When every priority is known the display order is determined: any two
      orderings that keep each rank's tasks in their original order and
      sort the ranks are the same list. So the stable insertion sort below
      gives exactly what any stable sort with this comparator gives. */
  lemma OrdemDeExibicaoUnica(r1: seq<Tarefa>, r2: seq<Tarefa>, s: seq<Tarefa>)
    requires Conhecidas(s)
    requires OrdemDeExibicao(r1, s) && OrdemDeExibicao(r2, s)
    ensures r1 == r2
  {
    var k := PostosDe(s);
    OrdenadasIguais(r1, r2, k);
  }

  /** The state of one insertion pass over `s[..i + 1]` while the moving
      task sits at `j`: leaving it out, the tasks are in rank order, and it
      ranks strictly before every task it has already passed. */
  predicate InsercaoEmCurso(s: seq<Tarefa>, k: Postos, i: int, j: int)
    requires 0 <= j <= i < |s|
  {
    && (forall p, q :: 0 <= p < q <= i && p != j && q != j ==> Posto(k, s[p]) <= Posto(k, s[q]))
    && (forall q :: j < q <= i ==> Posto(k, s[j]) < Posto(k, s[q]))
  }

  lemma InsercaoComeca(s: seq<Tarefa>, k: Postos, i: int)
    requires 0 <= i < |s|
    requires Ordenada(s[..i], k)
    ensures InsercaoEmCurso(s, k, i, i)
  {
    forall p, q | 0 <= p < q <= i && p != i && q != i ensures Posto(k, s[p]) <= Posto(k, s[q]) {
      assert s[..i][p] == s[p] && s[..i][q] == s[q];
    }
  }

  lemma InsercaoAvanca(s: seq<Tarefa>, k: Postos, i: int, j: int)
    requires 0 < j <= i < |s|
    requires InsercaoEmCurso(s, k, i, j)
    requires Posto(k, s[j - 1]) > Posto(k, s[j])
    ensures InsercaoEmCurso(s[j - 1 := s[j]][j := s[j - 1]], k, i, j - 1)
  {
  }

  lemma InsercaoTermina(s: seq<Tarefa>, k: Postos, i: int, j: int)
    requires 0 <= j <= i < |s|
    requires InsercaoEmCurso(s, k, i, j)
    requires j == 0 || Posto(k, s[j - 1]) <= Posto(k, s[j])
    ensures Ordenada(s[..i + 1], k)
  {
    forall p, q | 0 <= p < q <= i ensures Posto(k, s[p]) <= Posto(k, s[q]) {
      if q == j && p < j - 1 {
        assert Posto(k, s[p]) <= Posto(k, s[j - 1]);
      }
    }
  }

  /** Everything an insertion pass keeps while the moving task sits at `j`:
      the contents and rank groups of `original`, and, when every recorded
      rank is that of a known priority, the ordering state of the pass. */
  ghost predicate EstadoDaInsercao(s: seq<Tarefa>, original: seq<Tarefa>, k: Postos, i: int, j: int, conhecidas: bool)
    requires 0 <= j <= i < |s|
  {
    && Cobre(s, k)
    && multiset(s) == multiset(original)
    && MesmosGrupos(s, original, k)
    && (conhecidas ==> InsercaoEmCurso(s, k, i, j))
  }

  lemma PassoDaInsercao(s: seq<Tarefa>, original: seq<Tarefa>, k: Postos, i: int, j: int, conhecidas: bool)
    requires 0 < j <= i < |s|
    requires Posto(k, s[j - 1]) > Posto(k, s[j])
    requires EstadoDaInsercao(s, original, k, i, j, conhecidas)
    ensures EstadoDaInsercao(s[j - 1 := s[j]][j := s[j - 1]], original, k, i, j - 1, conhecidas)
  {
    var t := s[j - 1 := s[j]][j := s[j - 1]];
    TrocaPreservaGrupos(s, k, j);
    MesmosGruposTransitivo(t, s, original, k);
    assert multiset(t) == multiset(s);
    if conhecidas {
      InsercaoAvanca(s, k, i, j);
    }
  }

  /** One step of an insertion pass: the moving task at `j` changes places
      with its left neighbour, which the comparator puts after it. */
  method RecuarUmaPosicao(a: array<Tarefa>, i: int, j: int, ghost original: seq<Tarefa>, ghost k: Postos, ghost conhecidas: bool)
    requires 0 < j <= i < a.Length
    requires Comparar(a[j - 1], a[j]) > 0
    requires Registra(k)
    requires EstadoDaInsercao(a[..], original, k, i, j, conhecidas)
    modifies a
    ensures Registra(k)
    ensures EstadoDaInsercao(a[..], original, k, i, j - 1, conhecidas)
  {
    ChaveRespeitaComparar(a[j - 1], a[j]);
    PassoDaInsercao(a[..], original, k, i, j, conhecidas);
    ghost var depois := a[..][j - 1 := a[j]][j := a[j - 1]];
    a[j - 1], a[j] := a[j], a[j - 1];
    assert a[..] == depois;
  }

  /** One pass of insertion sort: moves `a[i]` left past every earlier task
      the comparator ranks after it. When the prefix `a[..i]` is in rank
      order and all recorded ranks are of known priorities, `a[..i + 1]` is
      in rank order. */
  method InserirNaOrdem(a: array<Tarefa>, i: int, ghost k: Postos)
    requires 0 <= i < a.Length
    requires Registra(k) && Cobre(a[..], k)
    modifies a
    ensures Cobre(a[..], k)
    ensures multiset(a[..]) == multiset(old(a[..]))
    ensures MesmosGrupos(a[..], old(a[..]), k)
    ensures PostosConhecidos(k) && old(Ordenada(a[..i], k)) ==> Ordenada(a[..i + 1], k)
  {
    ghost var conhecidas := PostosConhecidos(k) && Ordenada(a[..i], k);
    if conhecidas {
      InsercaoComeca(a[..], k, i);
    }
    var j := i;
    while 0 < j && Comparar(a[j - 1], a[j]) > 0
      invariant 0 <= j <= i
      invariant Registra(k)
      invariant EstadoDaInsercao(a[..], old(a[..]), k, i, j, conhecidas)
    {
      RecuarUmaPosicao(a, i, j, old(a[..]), k, conhecidas);
      j := j - 1;
    }
    if conhecidas {
      if 0 < j {
        ChaveRespeitaComparar(a[j - 1], a[j]);
      }
      InsercaoTermina(a[..], k, i, j);
    }
  }

  /** The in-place sort of the task list (Array.prototype.sort with the
      display comparator), as a stable insertion sort. */
  method OrdenarParaExibicao(a: array<Tarefa>)
    modifies a
    ensures OrdemDeExibicao(a[..], old(a[..]))
  {
    ghost var k := PostosDe(a[..]);
    var i := 0;
    while i < a.Length
      invariant 0 <= i <= a.Length
      invariant Registra(k) && Cobre(a[..], k)
      invariant multiset(a[..]) == multiset(old(a[..]))
      invariant MesmosGrupos(a[..], old(a[..]), k)
      invariant PostosConhecidos(k) ==> Ordenada(a[..i], k)
    {
      ghost var antes := a[..];
      InserirNaOrdem(a, i, k);
      MesmosGruposTransitivo(a[..], antes, old(a[..]), k);
      i := i + 1;
    }
    assert a[..a.Length] == a[..];
    PostosRegistrados(old(a[..]), k);
    if Conhecidas(old(a[..])) {
      ConhecidasPostos(old(a[..]));
    }
  }

  /** A rank map that holds current ranks for exactly the tasks of `s` is
      the one computed from `s`. */
  lemma PostosRegistrados(s: seq<Tarefa>, k: Postos)
    requires Registra(k)
    requires k.Keys == set t | t in s
    ensures PostosDe(s) == k
  {
  }

  /** The icon shown beside a priority; anything outside the table gets the
      white circle. */
  function ObterIconePrioridade(p: string): (icone: string)
    ensures |icone| == 1
    ensures icone == "\U{1F534}" <==> Peso(p) == Some(3)
    ensures icone == "\U{1F7E1}" <==> Peso(p) == Some(2)
    ensures icone == "\U{1F7E2}" <==> Peso(p) == Some(1)
    ensures icone == "⚪" <==> Peso(p).None?
  {
    if p == "alta" then "\U{1F534}"        // red circle
    else if p == "media" then "\U{1F7E1}"  // yellow circle
    else if p == "baixa" then "\U{1F7E2}"  // green circle
    else "⚪"                          // white circle
  }

  /** Upper-cases an ASCII lower-case letter; other characters are kept. */
  function Maiuscula(c: char): (m: char)
    ensures 'a' <= c <= 'z' ==> 'A' <= m <= 'Z' && m as int == c as int - 32
    ensures !('a' <= c <= 'z') ==> m == c
  {
    if 'a' <= c <= 'z' then (c as int - 32) as char else c
  }

  /** The string with its first character upper-cased and the rest kept
      (`charAt(0).toUpperCase() + slice(1)`); the empty string stays empty. */
  function CapitalizarPrimeira(s: string): (r: string)
    ensures |r| == |s|
    ensures s != [] ==> r[0] == Maiuscula(s[0]) && r[1..] == s[1..]
    ensures s != [] ==> !('a' <= r[0] <= 'z')
    ensures s != [] && !('a' <= s[0] <= 'z') ==> r == s
  {
    if s == [] then [] else [Maiuscula(s[0])] + s[1..]
  }
}
