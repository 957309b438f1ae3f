/** The task manager (`GerenciadorTarefas`): the task and project lists,
    the selected project and the two filters, the operations the page's
    forms and buttons call, and the filtered, sorted view of the tasks.

    Every operation that redraws the task list runs the display sort on the
    filtered view. When no filter is on, that view is the manager's own task
    array, so the sort also reorders the stored list; the contracts below
    state this side effect. */
module Gerenciador {
  import opened Sequencias
  import opened Entidades
  import opened Consulta
  import opened Exibicao

  /** The two filter settings; "todas" switches a filter off. */
  datatype Filtros = Filtros(status: string, prioridade: string)

  /** JavaScript truthiness of the selected project id: neither `null` nor
      the empty string selects a project. */
  predicate SelecaoAtiva(p: Option<Id>) {
    p.Some? && p.value != ""
  }

  /** The project stage of the filtered view. */
  function CriterioDoProjeto(selecao: Option<Id>): (c: Option<Criterio>)
    ensures c.Some? <==> SelecaoAtiva(selecao)
  {
    if SelecaoAtiva(selecao) then Some(DoProjeto(selecao)) else None
  }

  /** The status stage: only "concluidas" and "pendentes" filter; any other
      value, "todas" included, lets every task through. */
  function CriterioDeStatus(status: string): (c: Option<Criterio>)
    ensures c == Some(Concluidas) <==> status == "concluidas"
    ensures c == Some(Pendentes) <==> status == "pendentes"
    ensures c.None? <==> status != "concluidas" && status != "pendentes"
  {
    if status != "todas" then
      if status == "concluidas" then Some(Concluidas)
      else if status == "pendentes" then Some(Pendentes)
      else None
    else None
  }

  /** The priority stage: every value but "todas" keeps only the tasks of
      exactly that priority. */
  function CriterioDePrioridade(prioridade: string): (c: Option<Criterio>)
    ensures c.None? <==> prioridade == "todas"
  {
    if prioridade != "todas" then Some(DePrioridade(prioridade)) else None
  }

  class GerenciadorTarefas {
    var tarefas: seq<Tarefa>
    var projetos: seq<Projeto>
    var projetoSelecionado: Option<Id>
    var filtros: Filtros

    /** Task ids and project ids are unique, and no task was updated before
        it was created. */
    ghost predicate Valid()
      reads this, tarefas
    {
      && Distintos(IdsDasTarefas(tarefas))
      && Distintos(IdsDosProjetos(projetos))
      && (forall i :: 0 <= i < |tarefas| ==> tarefas[i].Valid())
    }

    /** A fresh manager: no tasks, no projects, no selection, both filters
        off. */
    constructor ()
      ensures Valid()
      ensures tarefas == [] && projetos == []
      ensures projetoSelecionado == None
      ensures filtros == Filtros("todas", "todas")
    {
      tarefas := [];
      projetos := [];
      projetoSelecionado := None;
      filtros := Filtros("todas", "todas");
    }

    /** Whether a task shows in the list under the current selection and
        filters, read straight off the settings. */
    predicate Visivel(t: Tarefa)
      reads this, t
    {
      && (SelecaoAtiva(projetoSelecionado) ==> t.projetoId == projetoSelecionado)
      && (filtros.status == "concluidas" ==> t.concluida)
      && (filtros.status == "pendentes" ==> !t.concluida)
      && (filtros.prioridade != "todas" ==> t.prioridade == filtros.prioridade)
    }

    /** No stage of the filtered view is on, so the view is the task array
        itself rather than a filtered copy. */
    predicate DevolveAPropriaLista()
      reads this
      ensures DevolveAPropriaLista() <==>
        && CriterioDoProjeto(projetoSelecionado).None?
        && CriterioDeStatus(filtros.status).None?
        && CriterioDePrioridade(filtros.prioridade).None?
    {
      && !SelecaoAtiva(projetoSelecionado)
      && filtros.status != "concluidas"
      && filtros.status != "pendentes"
      && filtros.prioridade == "todas"
    }

    /** The filtered view: the tasks that pass the project, status and
        priority stages, in the order of the task list. */
    function ObterTarefasFiltradas(): (r: seq<Tarefa>)
      reads this, tarefas
      ensures Subsequencia(r, tarefas)
      ensures forall i :: 0 <= i < |r| ==> Visivel(r[i])
      ensures forall i :: 0 <= i < |tarefas| ==> (tarefas[i] in r <==> Visivel(tarefas[i]))
      ensures DevolveAPropriaLista() ==> r == tarefas
    {
      var porProjeto := Etapa(tarefas, CriterioDoProjeto(projetoSelecionado));
      var porStatus := Etapa(porProjeto, CriterioDeStatus(filtros.status));
      var porPrioridade := Etapa(porStatus, CriterioDePrioridade(filtros.prioridade));
      TresEtapas(tarefas, CriterioDoProjeto(projetoSelecionado), CriterioDeStatus(filtros.status), CriterioDePrioridade(filtros.prioridade));
      VisivelSeAdmitida(porPrioridade);
      VisivelSeAdmitida(tarefas);
      porPrioridade
    }

    /** Passing the three stages is being visible. */
    lemma VisivelSeAdmitida(ts: seq<Tarefa>)
      ensures forall i :: 0 <= i < |ts| ==>
        (Visivel(ts[i]) <==>
          && Admite(ts[i], CriterioDoProjeto(projetoSelecionado))
          && Admite(ts[i], CriterioDeStatus(filtros.status))
          && Admite(ts[i], CriterioDePrioridade(filtros.prioridade)))
    {
    }

    /** The tasks with id `id`: with unique ids, at most one. */
    function ComId(id: Id): (r: set<Tarefa>)
      reads this
      ensures forall i :: 0 <= i < |tarefas| ==> (tarefas[i] in r <==> tarefas[i].id == id)
    {
      set i | 0 <= i < |tarefas| && tarefas[i].id == id :: tarefas[i]
    }

    /** The projects with id `id`: with unique ids, at most one. */
    function ProjetosComId(id: Id): (r: set<Projeto>)
      reads this
      ensures forall i :: 0 <= i < |projetos| ==> (projetos[i] in r <==> projetos[i].id == id)
    {
      set i | 0 <= i < |projetos| && projetos[i].id == id :: projetos[i]
    }

    /** The task list after a redraw, given the list `antes` it was drawn
        from: reordered for display when the view is the array itself, as
        it was otherwise. */
    ghost predicate Reordenada(antes: seq<Tarefa>)
      reads this, antes
    {
      if DevolveAPropriaLista() then OrdemDeExibicao(tarefas, antes) else tarefas == antes
    }

    /** The tasks the page lists, in the order it lists them: the filtered
        view after the display sort. An empty view shows the empty-list
        message and sorts nothing. */
    method OrdenarTarefasFiltradas() returns (exibidas: seq<Tarefa>)
      ensures OrdemDeExibicao(exibidas, old(ObterTarefasFiltradas()))
    {
      var filtradas := ObterTarefasFiltradas();
      if |filtradas| == 0 {
        exibidas := [];
        assert MesmosGrupos(exibidas, filtradas, PostosDe(filtradas));
        return;
      }
      var a := new Tarefa[|filtradas|](i requires 0 <= i < |filtradas| => filtradas[i]);
      assert a[..] == filtradas;
      OrdenarParaExibicao(a);
      exibidas := a[..];
    }

    /** Redraws the task list. The sort runs on the filtered view, which is
        the task array itself when no filter is on: then the stored list
        takes the display order. */
    method RenderizarTarefas()
      requires Valid()
      modifies this
      ensures Valid()
      ensures Reordenada(old(tarefas))
      ensures projetos == old(projetos) && projetoSelecionado == old(projetoSelecionado) && filtros == old(filtros)
    {
      var exibidas := OrdenarTarefasFiltradas();
      if DevolveAPropriaLista() {
        var antes := tarefas;
        tarefas := exibidas;
        PermutacaoPreservaValidade(tarefas, antes);
      }
    }

    /** Adds a new pending task with the caller-supplied id and stamp at the
        end of the list, then redraws. */
    method AdicionarTarefa(id: Id, campos: CamposTarefa, agora: Instante) returns (nova: Tarefa)
      requires Valid()
      requires id !in IdsDasTarefas(tarefas)
      modifies this
      ensures Valid()
      ensures fresh(nova)
      ensures nova.id == id && nova.Campos() == campos && !nova.concluida
      ensures nova.dataCriacao == agora && nova.dataAtualizacao == agora
      ensures Reordenada(old(tarefas) + [nova])
      ensures projetos == old(projetos) && projetoSelecionado == old(projetoSelecionado) && filtros == old(filtros)
    {
      nova := new Tarefa(id, campos, agora);
      IdsAnexarTarefa(tarefas, nova);
      tarefas := tarefas + [nova];
      RenderizarTarefas();
    }

    /** Overwrites the five editable fields of the task with id `id` and
        refreshes its update stamp, then redraws; an unknown id changes
        nothing. */
    method EditarTarefa(id: Id, campos: CamposTarefa, agora: Instante)
      requires Valid()
      requires forall i :: 0 <= i < |tarefas| ==> tarefas[i].dataAtualizacao <= agora
      modifies this, ComId(id)
      ensures Valid()
      ensures var k := PrimeiroIndice(old(IdsDasTarefas(tarefas)), id);
        if k == -1 then tarefas == old(tarefas)
        else
          && old(tarefas)[k].Campos() == campos
          && old(tarefas)[k].concluida == old(tarefas[k].concluida)
          && old(tarefas)[k].dataAtualizacao == agora
          && Reordenada(old(tarefas))
      ensures projetos == old(projetos) && projetoSelecionado == old(projetoSelecionado) && filtros == old(filtros)
    {
      var k := PrimeiroIndice(IdsDasTarefas(tarefas), id);
      if k != -1 {
        var tarefa := tarefas[k];
        UnicaComId(tarefas, k);
        tarefa.Atualizar(campos, agora);
        RenderizarTarefas();
      }
    }

    /** Deletes the task with id `id` from the list, then redraws; an
        unknown id changes nothing. */
    method RemoverTarefa(id: Id)
      requires Valid()
      modifies this
      ensures Valid()
      ensures id !in IdsDasTarefas(tarefas)
      ensures var k := PrimeiroIndice(old(IdsDasTarefas(tarefas)), id);
        if k == -1 then tarefas == old(tarefas)
        else Reordenada(old(tarefas)[..k] + old(tarefas)[k + 1..])
      ensures |tarefas| == |old(tarefas)| - (if id in old(IdsDasTarefas(tarefas)) then 1 else 0)
      ensures projetos == old(projetos) && projetoSelecionado == old(projetoSelecionado) && filtros == old(filtros)
    {
      var k := PrimeiroIndice(IdsDasTarefas(tarefas), id);
      if k != -1 {
        var restantes := tarefas[..k] + tarefas[k + 1..];
        SemATarefa(tarefas, k);
        tarefas := restantes;
        RenderizarTarefas();
        PermutacaoMantemIds(tarefas, restantes, id);
      }
    }

    /** Flips the completion flag of the task with id `id` and refreshes
        its update stamp, then redraws; an unknown id changes nothing. */
    method AlternarStatusTarefa(id: Id, agora: Instante)
      requires Valid()
      requires forall i :: 0 <= i < |tarefas| ==> tarefas[i].dataAtualizacao <= agora
      modifies this, ComId(id)
      ensures Valid()
      ensures var k := PrimeiroIndice(old(IdsDasTarefas(tarefas)), id);
        if k == -1 then tarefas == old(tarefas)
        else
          && old(tarefas)[k].concluida == !old(tarefas[k].concluida)
          && old(tarefas)[k].Campos() == old(tarefas[k].Campos())
          && old(tarefas)[k].dataAtualizacao == agora
          && Reordenada(old(tarefas))
      ensures forall i :: 0 <= i < |tarefas| ==> tarefas[i].dataAtualizacao <= agora
      ensures projetos == old(projetos) && projetoSelecionado == old(projetoSelecionado) && filtros == old(filtros)
    {
      var k := PrimeiroIndice(IdsDasTarefas(tarefas), id);
      if k != -1 {
        var tarefa := tarefas[k];
        UnicaComId(tarefas, k);
        tarefa.AlternarStatus(agora);
        ghost var antes := tarefas;
        RenderizarTarefas();
        if DevolveAPropriaLista() {
          CarimbosAte(tarefas, antes, agora);
        }
      }
    }

    /** Two `alternarStatusTarefa` calls in a row, at two successive
        instants; this composes the operation and models no single function
        of the page. Toggling the same task twice gives it back its
        completion flag, and only its update stamp has moved; an unknown id
        leaves the task list as it was. */
    method AlternarStatusDuasVezes(id: Id, agora: Instante, depois: Instante)
      requires Valid()
      requires forall i :: 0 <= i < |tarefas| ==> tarefas[i].dataAtualizacao <= agora
      requires agora <= depois
      modifies this, ComId(id)
      ensures Valid()
      ensures var k := PrimeiroIndice(old(IdsDasTarefas(tarefas)), id);
        k != -1 ==>
          && old(tarefas)[k].concluida == old(tarefas[k].concluida)
          && old(tarefas)[k].Campos() == old(tarefas[k].Campos())
          && old(tarefas)[k].dataAtualizacao == depois
      ensures PrimeiroIndice(old(IdsDasTarefas(tarefas)), id) == -1 ==> tarefas == old(tarefas)
    {
      var k := PrimeiroIndice(IdsDasTarefas(tarefas), id);
      ghost var tarefa := if k != -1 then tarefas[k] else null;
      ghost var antes := tarefas;
      AlternarStatusTarefa(id, agora);
      if k != -1 {
        if DevolveAPropriaLista() {
          assert tarefa in multiset(antes);
        }
        PosicaoDoObjeto(tarefas, tarefa);
        assert ComId(id) <= {tarefa};
      } else {
        NenhumaTarefaComId(tarefas, id);
        assert ComId(id) == {};
      }
      AlternarStatusTarefa(id, depois);
    }

    /** Adds a project with the caller-supplied id at the end of the project
        list; the task list is not redrawn. */
    method AdicionarProjeto(id: Id, nome: string, agora: Instante) returns (novo: Projeto)
      requires Valid()
      requires id !in IdsDosProjetos(projetos)
      modifies this
      ensures Valid()
      ensures fresh(novo) && novo.id == id && novo.nome == nome && novo.dataCriacao == agora
      ensures projetos == old(projetos) + [novo]
      ensures tarefas == old(tarefas) && projetoSelecionado == old(projetoSelecionado) && filtros == old(filtros)
    {
      novo := new Projeto(id, nome, agora);
      assert IdsDosProjetos(projetos + [novo]) == IdsDosProjetos(projetos) + [id];
      IdsUnicosAnexar(IdsDosProjetos(projetos), id);
      projetos := projetos + [novo];
    }

    /** Renames the project with id `id`; an unknown id changes nothing,
        and no other project or list changes. */
    method EditarProjeto(id: Id, novoNome: string)
      requires Valid()
      modifies ProjetosComId(id)
      ensures Valid()
      ensures forall i :: 0 <= i < |projetos| && projetos[i].id == id ==> projetos[i].nome == novoNome
    {
      var k := PrimeiroIndice(IdsDosProjetos(projetos), id);
      if k != -1 {
        var projeto := projetos[k];
        UnicoComId(projetos, k);
        projeto.AtualizarNome(novoNome);
      } else {
        NenhumProjetoComId(projetos, id);
      }
    }

    /** Deletes the project with id `id` together with all its tasks, clears
        the selection if it pointed at that project, then redraws; an
        unknown id changes nothing. */
    method RemoverProjeto(id: Id)
      requires Valid()
      modifies this
      ensures Valid()
      ensures id !in old(IdsDosProjetos(projetos)) ==>
        && projetos == old(projetos) && tarefas == old(tarefas)
        && projetoSelecionado == old(projetoSelecionado)
      ensures id in old(IdsDosProjetos(projetos)) ==>
        && ExcluiuProjeto(old(projetos), old(projetoSelecionado), id)
        && Reordenada(old(Filtrar(tarefas, ForaDoProjeto(id))))
        && (forall i :: 0 <= i < |tarefas| ==> tarefas[i].projetoId != Some(id))
        && |tarefas| == old(|tarefas| - |Filtrar(tarefas, DoProjeto(Some(id)))|)
      ensures id !in IdsDosProjetos(projetos)
      ensures filtros == old(filtros)
    {
      var k := PrimeiroIndice(IdsDosProjetos(projetos), id);
      if k == -1 {
        NenhumProjetoComId(projetos, id);
        return;
      }
      var restantes := Filtrar(tarefas, ForaDoProjeto(id));
      ExcluirProjetoEm(k, id);
      DescartarTarefasDoProjeto(id);
      RenderizarTarefas();
      ForaDoProjetoPermutacao(tarefas, restantes, id);
    }

    /** The project list and selection after the project with id `id` was
        deleted from `antes` with selection `selecao`: the project is spliced
        out at its position and a selection pointing at it is cleared. */
    ghost predicate ExcluiuProjeto(antes: seq<Projeto>, selecao: Option<Id>, id: Id)
      reads this
    {
      var k := PrimeiroIndice(IdsDosProjetos(antes), id);
      && 0 <= k
      && projetos == antes[..k] + antes[k + 1..]
      && projetoSelecionado == (if selecao == Some(id) then None else selecao)
    }

    /** The project half of a removal: the project at position `k` leaves
        the list and a selection pointing at it is cleared. */
    method ExcluirProjetoEm(k: int, id: Id)
      requires Valid()
      requires k == PrimeiroIndice(IdsDosProjetos(projetos), id) && k != -1
      modifies this
      ensures Valid()
      ensures ExcluiuProjeto(old(projetos), old(projetoSelecionado), id)
      ensures id !in IdsDosProjetos(projetos)
      ensures tarefas == old(tarefas) && filtros == old(filtros)
    {
      SemOProjeto(projetos, k);
      projetos := projetos[..k] + projetos[k + 1..];
      if projetoSelecionado == Some(id) {
        projetoSelecionado := None;
      }
    }

    /** The task half of a removal: the cascade keeps the tasks of every
        other project (and those of none), in their order. */
    method DescartarTarefasDoProjeto(id: Id)
      requires Valid()
      modifies this
      ensures Valid()
      ensures tarefas == old(Filtrar(tarefas, ForaDoProjeto(id)))
      ensures |tarefas| == old(|tarefas| - |Filtrar(tarefas, DoProjeto(Some(id)))|)
      ensures projetos == old(projetos) && projetoSelecionado == old(projetoSelecionado)
      ensures filtros == old(filtros)
    {
      var restantes := Filtrar(tarefas, ForaDoProjeto(id));
      CascataPreservaValidade(tarefas, id);
      tarefas := restantes;
    }

    /** Selects a project (None for no selection), then redraws. */
    method SelecionarProjeto(selecao: Option<Id>)
      requires Valid()
      modifies this
      ensures Valid()
      ensures projetoSelecionado == selecao
      ensures Reordenada(old(tarefas))
      ensures projetos == old(projetos) && filtros == old(filtros)
    {
      projetoSelecionado := selecao;
      RenderizarTarefas();
    }

    /** Sets the status or the priority filter, then redraws; any other
        filter kind leaves both filters as they were. */
    method AplicarFiltro(tipo: string, valor: string)
      requires Valid()
      modifies this
      ensures Valid()
      ensures filtros.status == (if tipo == "status" then valor else old(filtros.status))
      ensures filtros.prioridade == (if tipo == "prioridade" then valor else old(filtros.prioridade))
      ensures Reordenada(old(tarefas))
      ensures projetos == old(projetos) && projetoSelecionado == old(projetoSelecionado)
    {
      if tipo == "status" {
        filtros := filtros.(status := valor);
      } else if tipo == "prioridade" {
        filtros := filtros.(prioridade := valor);
      }
      RenderizarTarefas();
    }
  }

  /** Three filter stages in a row keep, in order, exactly the tasks that
      pass all three. */
  lemma TresEtapas(ts: seq<Tarefa>, c1: Option<Criterio>, c2: Option<Criterio>, c3: Option<Criterio>)
    ensures var r := Etapa(Etapa(Etapa(ts, c1), c2), c3);
      && Subsequencia(r, ts)
      && (forall i :: 0 <= i < |r| ==> Admite(r[i], c1) && Admite(r[i], c2) && Admite(r[i], c3))
      && (forall i :: 0 <= i < |ts| ==> (ts[i] in r <==> Admite(ts[i], c1) && Admite(ts[i], c2) && Admite(ts[i], c3)))
      && (forall x :: x in ts ==> multiset(r)[x] == if Admite(x, c1) && Admite(x, c2) && Admite(x, c3) then multiset(ts)[x] else 0)
  {
    var s1 := Etapa(ts, c1);
    var s2 := Etapa(s1, c2);
    var r := Etapa(s2, c3);
    SubsequenciaTransitiva(r, s2, s1);
    SubsequenciaTransitiva(r, s1, ts);
    forall i | 0 <= i < |r| ensures Admite(r[i], c1) && Admite(r[i], c2) {
      assert r[i] in multiset(s2);
      var p :| 0 <= p < |s2| && s2[p] == r[i];
      assert s2[p] in multiset(s1);
      var q :| 0 <= q < |s1| && s1[q] == r[i];
    }
    forall i | 0 <= i < |ts| && Admite(ts[i], c1) && Admite(ts[i], c2) && Admite(ts[i], c3) ensures ts[i] in r {
      var p :| 0 <= p < |s1| && s1[p] == ts[i];
      var q :| 0 <= q < |s2| && s2[q] == ts[i];
    }
  }

  /** A list drawn, with multiplicity, from a valid task list keeps unique
      ids and valid tasks. */
  lemma PermutacaoPreservaValidade(r: seq<Tarefa>, s: seq<Tarefa>)
    requires multiset(r) <= multiset(s)
    requires Distintos(IdsDasTarefas(s))
    requires forall i :: 0 <= i < |s| ==> s[i].Valid()
    ensures Distintos(IdsDasTarefas(r))
    ensures forall i :: 0 <= i < |r| ==> r[i].Valid()
  {
    IdsUnicosSubmultiset(r, s);
    forall i | 0 <= i < |r| ensures r[i].Valid() {
      assert r[i] in multiset(s);
    }
  }

  /** The cascade keeps the task list's invariant and shrinks it by the
      number of the removed project's tasks. */
  lemma CascataPreservaValidade(ts: seq<Tarefa>, id: Id)
    requires Distintos(IdsDasTarefas(ts))
    requires forall i :: 0 <= i < |ts| ==> ts[i].Valid()
    ensures var r := Filtrar(ts, ForaDoProjeto(id));
      && Distintos(IdsDasTarefas(r))
      && (forall i :: 0 <= i < |r| ==> r[i].Valid())
      && |r| == |ts| - |Filtrar(ts, DoProjeto(Some(id)))|
  {
    CascataParticiona(ts, id);
    PermutacaoPreservaValidade(Filtrar(ts, ForaDoProjeto(id)), ts);
  }

  /** Appending a task with a new id keeps task ids unique. */
  lemma IdsAnexarTarefa(ts: seq<Tarefa>, nova: Tarefa)
    requires Distintos(IdsDasTarefas(ts)) && nova.id !in IdsDasTarefas(ts)
    ensures Distintos(IdsDasTarefas(ts + [nova]))
  {
    assert IdsDasTarefas(ts + [nova]) == IdsDasTarefas(ts) + [nova.id];
    IdsUnicosAnexar(IdsDasTarefas(ts), nova.id);
  }

  /** A reordering of tasks stamped no later than `agora` holds only
      such tasks. */
  lemma CarimbosAte(r: seq<Tarefa>, s: seq<Tarefa>, agora: Instante)
    requires multiset(r) == multiset(s)
    requires forall i :: 0 <= i < |s| ==> s[i].dataAtualizacao <= agora
    ensures forall i :: 0 <= i < |r| ==> r[i].dataAtualizacao <= agora
  {
    forall i | 0 <= i < |r| ensures r[i].dataAtualizacao <= agora {
      assert r[i] in multiset(s);
      var p :| 0 <= p < |s| && s[p] == r[i];
    }
  }

  /** With unique ids, looking a task up by its id finds that very task,
      and no other task carries its id. */
  lemma PosicaoDoObjeto(ts: seq<Tarefa>, t: Tarefa)
    requires t in ts
    requires Distintos(IdsDasTarefas(ts))
    ensures var k := PrimeiroIndice(IdsDasTarefas(ts), t.id);
      0 <= k && ts[k] == t
    ensures forall i :: 0 <= i < |ts| && ts[i].id == t.id ==> ts[i] == t
  {
    var ids := IdsDasTarefas(ts);
    var p :| 0 <= p < |ts| && ts[p] == t;
    assert ids[p] == t.id;
    var k := PrimeiroIndice(ids, t.id);
    assert ids[k] == ids[p];
    UnicaComId(ts, p);
  }

  /** An id missing from the id list belongs to no task. */
  lemma NenhumaTarefaComId(ts: seq<Tarefa>, id: Id)
    requires id !in IdsDasTarefas(ts)
    ensures forall i :: 0 <= i < |ts| ==> ts[i].id != id
  {
    forall i | 0 <= i < |ts| ensures ts[i].id != id {
      assert IdsDasTarefas(ts)[i] == ts[i].id;
    }
  }

  /** An id missing from the id list belongs to no project. */
  lemma NenhumProjetoComId(ps: seq<Projeto>, id: Id)
    requires id !in IdsDosProjetos(ps)
    ensures forall i :: 0 <= i < |ps| ==> ps[i].id != id
  {
    forall i | 0 <= i < |ps| ensures ps[i].id != id {
      assert IdsDosProjetos(ps)[i] == ps[i].id;
    }
  }

  /** With unique ids, position `k` holds the only task with its id. */
  lemma UnicaComId(ts: seq<Tarefa>, k: int)
    requires 0 <= k < |ts|
    requires Distintos(IdsDasTarefas(ts))
    ensures forall i :: 0 <= i < |ts| && i != k ==> ts[i].id != ts[k].id
  {
    forall i | 0 <= i < |ts| && i != k ensures ts[i].id != ts[k].id {
      if i < k {
        assert IdsDasTarefas(ts)[i] != IdsDasTarefas(ts)[k];
      } else {
        assert IdsDasTarefas(ts)[k] != IdsDasTarefas(ts)[i];
      }
    }
  }

  /** With unique ids, position `k` holds the only project with its id. */
  lemma UnicoComId(ps: seq<Projeto>, k: int)
    requires 0 <= k < |ps|
    requires Distintos(IdsDosProjetos(ps))
    ensures forall i :: 0 <= i < |ps| && i != k ==> ps[i].id != ps[k].id
  {
    forall i | 0 <= i < |ps| && i != k ensures ps[i].id != ps[k].id {
      if i < k {
        assert IdsDosProjetos(ps)[i] != IdsDosProjetos(ps)[k];
      } else {
        assert IdsDosProjetos(ps)[k] != IdsDosProjetos(ps)[i];
      }
    }
  }

  /** Deleting position `k` of a task list with unique ids removes the only
      task with that id. */
  lemma SemATarefa(ts: seq<Tarefa>, k: int)
    requires 0 <= k < |ts|
    requires Distintos(IdsDasTarefas(ts))
    ensures Distintos(IdsDasTarefas(ts[..k] + ts[k + 1..]))
    ensures ts[k].id !in IdsDasTarefas(ts[..k] + ts[k + 1..])
    ensures multiset(ts[..k] + ts[k + 1..]) <= multiset(ts)
  {
    var r := ts[..k] + ts[k + 1..];
    assert ts == ts[..k] + [ts[k]] + ts[k + 1..];
    assert multiset(ts) == multiset(ts[..k]) + multiset{ts[k]} + multiset(ts[k + 1..]);
    IdsUnicosSubmultiset(r, ts);
    UnicaComId(ts, k);
    forall i | 0 <= i < |r| ensures IdsDasTarefas(r)[i] != ts[k].id {
      if i < k {
        assert r[i] == ts[i];
      } else {
        assert r[i] == ts[i + 1];
      }
    }
  }

  /** Deleting position `k` of a project list with unique ids removes the
      only project with that id. */
  lemma SemOProjeto(ps: seq<Projeto>, k: int)
    requires 0 <= k < |ps|
    requires Distintos(IdsDosProjetos(ps))
    ensures Distintos(IdsDosProjetos(ps[..k] + ps[k + 1..]))
    ensures ps[k].id !in IdsDosProjetos(ps[..k] + ps[k + 1..])
  {
    var ids := IdsDosProjetos(ps);
    assert IdsDosProjetos(ps[..k] + ps[k + 1..]) == ids[..k] + ids[k + 1..];
    DistintosSemPosicao(ids, k);
    var restantes := ids[..k] + ids[k + 1..];
    forall i | 0 <= i < |restantes| ensures restantes[i] != ids[k] {
      if i < k {
        assert restantes[i] == ids[i];
      } else {
        assert restantes[i] == ids[i + 1];
      }
    }
  }

  /** A reordering of a list without the id `id` has no task with that id. */
  lemma PermutacaoMantemIds(r: seq<Tarefa>, s: seq<Tarefa>, id: Id)
    requires multiset(r) == multiset(s)
    requires id !in IdsDasTarefas(s)
    ensures id !in IdsDasTarefas(r)
  {
    forall i | 0 <= i < |r| ensures r[i].id != id {
      assert r[i] in multiset(s);
      var p :| 0 <= p < |s| && s[p] == r[i];
      assert IdsDasTarefas(s)[p] == r[i].id;
    }
  }

  /** A reordering of the tasks a project's removal keeps holds no task of
      that project. */
  lemma ForaDoProjetoPermutacao(r: seq<Tarefa>, s: seq<Tarefa>, id: Id)
    requires multiset(r) == multiset(s)
    requires forall i :: 0 <= i < |s| ==> Atende(s[i], ForaDoProjeto(id))
    ensures forall i :: 0 <= i < |r| ==> r[i].projetoId != Some(id)
  {
    forall i | 0 <= i < |r| ensures r[i].projetoId != Some(id) {
      assert r[i] in multiset(s);
      var p :| 0 <= p < |s| && s[p] == r[i];
      assert Atende(s[p], ForaDoProjeto(id));
    }
  }
}
