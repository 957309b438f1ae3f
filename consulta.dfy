/** The `filter` calls of the task manager: the project, status and priority
    stages of the filtered view, and the cascade that drops a removed
    project's tasks. */
module Consulta {
  import opened Sequencias
  import opened Entidades

  /** One test per filter callback of the source. */
  datatype Criterio =
    | DoProjeto(selecao: Option<Id>)    // task's project equals the selection
    | ForaDoProjeto(removido: Id)        // task's project differs from a removed project
    | Concluidas                          // status "concluidas"
    | Pendentes                           // status "pendentes"
    | DePrioridade(prioridade: string)    // task's priority equals the priority filter

  predicate Atende(t: Tarefa, c: Criterio)
    reads t
  {
    match c
    case DoProjeto(p) => t.projetoId == p
    case ForaDoProjeto(p) => t.projetoId != Some(p)
    case Concluidas => t.concluida
    case Pendentes => !t.concluida
    case DePrioridade(p) => t.prioridade == p
  }

  /** The cascade's test is the negation of the project stage's test for the
      removed id (strict `!==` against `===`), and the two status tests
      negate each other. */
  lemma CriteriosComplementares(t: Tarefa, id: Id)
    ensures Atende(t, ForaDoProjeto(id)) <==> !Atende(t, DoProjeto(Some(id)))
    ensures Atende(t, Pendentes) <==> !Atende(t, Concluidas)
  {
  }

  /** Array.prototype.filter: the tasks of `ts` that meet `c`, in their order. */
  function Filtrar(ts: seq<Tarefa>, c: Criterio): (r: seq<Tarefa>)
    reads ts
    ensures Subsequencia(r, ts)
    ensures forall i :: 0 <= i < |r| ==> r[i] in ts && Atende(r[i], c)
    ensures forall i :: 0 <= i < |ts| && Atende(ts[i], c) ==> ts[i] in r
  {
    if ts == [] then []
    else if Atende(ts[0], c) then [ts[0]] + Filtrar(ts[1..], c)
    else Filtrar(ts[1..], c)
  }

  /** `filter` keeps every passing task as often as it occurs in the list,
      and no failing task. */
  lemma {:induction false} FiltrarMultiplicidade(ts: seq<Tarefa>, c: Criterio)
    ensures multiset(Filtrar(ts, c)) <= multiset(ts)
    ensures forall x :: x in ts ==> multiset(Filtrar(ts, c))[x] == if Atende(x, c) then multiset(ts)[x] else 0
  {
    if ts != [] {
      FiltrarMultiplicidade(ts[1..], c);
      assert ts == [ts[0]] + ts[1..];
    }
  }

  /** The cascade splits the task list in two: the tasks it keeps and the
      tasks of the removed project together make up the whole list, so the
      list shrinks by exactly the number of the project's tasks. */
  lemma {:induction false} CascataParticiona(ts: seq<Tarefa>, id: Id)
    ensures multiset(Filtrar(ts, ForaDoProjeto(id))) + multiset(Filtrar(ts, DoProjeto(Some(id)))) == multiset(ts)
    ensures |Filtrar(ts, ForaDoProjeto(id))| == |ts| - |Filtrar(ts, DoProjeto(Some(id)))|
  {
    if ts != [] {
      var resto := ts[1..];
      CascataParticiona(resto, id);
      assert multiset(ts) == multiset{ts[0]} + multiset(resto) by {
        assert ts == [ts[0]] + resto;
      }
      if ts[0].projetoId == Some(id) {
        assert Filtrar(ts, ForaDoProjeto(id)) == Filtrar(resto, ForaDoProjeto(id));
        assert Filtrar(ts, DoProjeto(Some(id))) == [ts[0]] + Filtrar(resto, DoProjeto(Some(id)));
      } else {
        assert Filtrar(ts, ForaDoProjeto(id)) == [ts[0]] + Filtrar(resto, ForaDoProjeto(id));
        assert Filtrar(ts, DoProjeto(Some(id))) == Filtrar(resto, DoProjeto(Some(id)));
      }
    }
  }

  /** Whether `t` passes a filter stage: a stage that is switched off
      (None) lets every task through. */
  predicate Admite(t: Tarefa, c: Option<Criterio>)
    reads t
  {
    c.None? || Atende(t, c.value)
  }

  /** One stage of the filtered view: `filter` with `c` when the stage is
      on, the same list (the same array in the source) when it is off. */
  function Etapa(ts: seq<Tarefa>, c: Option<Criterio>): (r: seq<Tarefa>)
    reads ts
    ensures Subsequencia(r, ts) && multiset(r) <= multiset(ts)
    ensures forall i :: 0 <= i < |r| ==> r[i] in ts
    ensures forall i :: 0 <= i < |r| ==> Admite(r[i], c)
    ensures forall i :: 0 <= i < |ts| && Admite(ts[i], c) ==> ts[i] in r
    ensures forall x :: x in ts ==> multiset(r)[x] == if Admite(x, c) then multiset(ts)[x] else 0
    ensures c.None? ==> r == ts
  {
    match c
    case None =>
      SubsequenciaReflexiva(ts);
      ts
    case Some(criterio) =>
      var r := Filtrar(ts, criterio);
      SubsequenciaSubmultiset(r, ts);
      FiltrarMultiplicidade(ts, criterio);
      r
  }
}
