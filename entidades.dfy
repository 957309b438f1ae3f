/** The two record kinds of the tracker: tasks (`Tarefa`) and projects
    (`Projeto`). Both are objects whose fields are updated in place; ids and
    creation stamps never change after construction. */
module Entidades {
  import opened Sequencias

  /** JavaScript's `null` for an absent due date, project link or selection. */
  datatype Option<+T> = None | Some(value: T)

  /** Ids are opaque strings; callers supply them (the clock-and-random
      generator is not modelled). */
  type Id = string

  /** An abstract timestamp standing for the ISO strings the source stamps
      with the wall clock; the caller supplies "now". */
  type Instante = nat

  /** The five task fields the task form collects and hands over on both
      creation and edit: title, description, due date (None when the date
      input is empty), priority and project link (None when no project). */
  datatype CamposTarefa = CamposTarefa(
    titulo: string,
    descricao: string,
    dataVencimento: Option<string>,
    prioridade: string,
    projetoId: Option<Id>)

  class Tarefa {
    const id: Id
    var titulo: string
    var descricao: string
    var dataVencimento: Option<string>
    var prioridade: string
    var projetoId: Option<Id>
    var concluida: bool
    const dataCriacao: Instante
    var dataAtualizacao: Instante

    /** The update stamp is never earlier than the creation stamp. */
    ghost predicate Valid()
      reads this
    {
      dataCriacao <= dataAtualizacao
    }

    /** The five fields an edit may overwrite. */
    function Campos(): CamposTarefa
      reads this
    {
      CamposTarefa(titulo, descricao, dataVencimento, prioridade, projetoId)
    }

    /** A new task is pending and stamped twice with the same instant. */
    constructor (id: Id, campos: CamposTarefa, agora: Instante)
      ensures Valid()
      ensures this.id == id && Campos() == campos && !concluida
      ensures dataCriacao == agora && dataAtualizacao == agora
    {
      this.id := id;
      titulo := campos.titulo;
      descricao := campos.descricao;
      dataVencimento := campos.dataVencimento;
      prioridade := campos.prioridade;
      projetoId := campos.projetoId;
      concluida := false;
      dataCriacao := agora;
      dataAtualizacao := agora;
    }

    /** Flips the completion flag and refreshes the update stamp; nothing
        else changes. */
    method AlternarStatus(agora: Instante)
      requires Valid() && dataAtualizacao <= agora
      modifies this
      ensures Valid()
      ensures concluida == !old(concluida)
      ensures Campos() == old(Campos())
      ensures dataAtualizacao == agora && old(dataAtualizacao) <= dataAtualizacao
    {
      concluida := !concluida;
      dataAtualizacao := agora;
    }

    /** Overwrites the five editable fields with `campos` and refreshes the
        update stamp; the completion flag is kept. */
    method Atualizar(campos: CamposTarefa, agora: Instante)
      requires Valid() && dataAtualizacao <= agora
      modifies this
      ensures Valid()
      ensures Campos() == campos
      ensures concluida == old(concluida)
      ensures dataAtualizacao == agora && old(dataAtualizacao) <= dataAtualizacao
    {
      titulo := campos.titulo;
      descricao := campos.descricao;
      dataVencimento := campos.dataVencimento;
      prioridade := campos.prioridade;
      projetoId := campos.projetoId;
      dataAtualizacao := agora;
    }
  }

  class Projeto {
    const id: Id
    var nome: string
    const dataCriacao: Instante

    constructor (id: Id, nome: string, agora: Instante)
      ensures this.id == id && this.nome == nome && dataCriacao == agora
    {
      this.id := id;
      this.nome := nome;
      dataCriacao := agora;
    }

    /** Renames the project; its id and creation stamp are constants. */
    method AtualizarNome(novoNome: string)
      modifies this
      ensures nome == novoNome
    {
      nome := novoNome;
    }
  }

  /** The ids of a task list, position by position. */
  function IdsDasTarefas(ts: seq<Tarefa>): seq<Id> {
    seq(|ts|, i requires 0 <= i < |ts| => ts[i].id)
  }

  /** The ids of a project list, position by position. */
  function IdsDosProjetos(ps: seq<Projeto>): seq<Id> {
    seq(|ps|, i requires 0 <= i < |ps| => ps[i].id)
  }

  /** Tasks drawn, with multiplicity, from a list whose ids are unique have
      unique ids too: this covers both a filtered list and a reordered one. */
  lemma IdsUnicosSubmultiset(r: seq<Tarefa>, s: seq<Tarefa>)
    requires multiset(r) <= multiset(s)
    requires Distintos(IdsDasTarefas(s))
    ensures Distintos(IdsDasTarefas(r))
  {
    assert Distintos(s) by {
      forall i, j | 0 <= i < j < |s| ensures s[i] != s[j] {
        assert IdsDasTarefas(s)[i] != IdsDasTarefas(s)[j];
      }
    }
    DistintosSubmultiset(r, s);
    forall i, j | 0 <= i < j < |r| ensures IdsDasTarefas(r)[i] != IdsDasTarefas(r)[j] {
      assert r[i] in multiset(r) && r[j] in multiset(r);
      assert r[i] in s && r[j] in s;
      var p :| 0 <= p < |s| && s[p] == r[i];
      var q :| 0 <= q < |s| && s[q] == r[j];
      assert p != q;
      if p < q {
        assert IdsDasTarefas(s)[p] != IdsDasTarefas(s)[q];
      } else {
        assert IdsDasTarefas(s)[q] != IdsDasTarefas(s)[p];
      }
    }
  }

  /** Appending an element whose id is new keeps the ids unique. */
  lemma IdsUnicosAnexar(ids: seq<Id>, id: Id)
    requires Distintos(ids) && id !in ids
    ensures Distintos(ids + [id])
  {
  }
}
