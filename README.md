# Task manager model (GerenciadorTarefas)

This project models in Dafny the in-memory core of a browser to-do application, `src/js/index.js`, and proves properties of it. The core has three parts:

- **Records.** `Tarefa` is a task: title, description, due date, priority, project link, completion flag and two stamps. `Projeto` is a project: a name and a creation stamp. The source updates both in place, so both are classes.
- **The manager.** `GerenciadorTarefas` is a class. Its fields are the task list, the project list, the selected project and the two filters (`status`, `prioridade`). Its methods are the operations the page calls:
  - add, edit, remove and toggle a task;
  - add, rename and remove a project, where removal cascades to the project's tasks;
  - select a project and set a filter.
- **The view.** The three-stage filter pipeline `obterTarefasFiltradas` feeds the display sort in `renderizarTarefas`. The sort puts pending tasks before completed ones, then orders `alta` > `media` > `baixa`. Two display helpers are included: the priority icon and the capitalisation helper.

Modules, one per file:

- `sequencias.dfy` (`Sequencias`): `findIndex`, duplicate-free lists, and the subsequence order that `filter` produces.
- `entidades.dfy` (`Entidades`): `Tarefa`, `Projeto`, and the id lists.
- `consulta.dfy` (`Consulta`): the `filter` callbacks, `Filtrar` (which is `filter`), one pipeline stage, and the cascade.
- `exibicao.dfy` (`Exibicao`): the comparator and the display rank. It also holds the in-place sort of a task array (a stable insertion sort over an `array`), the priority icon and the capitalisation helper.
- `gerenciador.dfy` (`Gerenciador`): the manager class.

Every operation that redraws the task list runs the display sort on the filtered view. `obterTarefasFiltradas` returns `this.tarefas` itself whenever no stage filters (src/js/index.js:357, :379). That is the case unless a project is selected, the status is "concluidas" or "pendentes", or the priority is other than "todas". A status value outside those three passes the `!== "todas"` test at :365 but filters nothing. Whenever the view is the stored array, the in-place `sort` at :442 reorders the stored task list. When a stage does filter, the sort works on the fresh array that `filter` returned, and the stored list keeps its order.

- `GerenciadorTarefas.Reordenada` states this effect.
- Each redrawing operation states its new task list through `Reordenada`. The list is either unchanged, or it is a display ordering (`OrdemDeExibicao`) of the list the operation produced. A display ordering is a permutation of that list. When every priority is known, it is also stable and rank-sorted.

The model takes some things as inputs:

- Ids come from the caller, with a freshness precondition. The source draws them from the clock and `Math.random`.
- Timestamps are an abstract `Instante` (a natural number). The caller passes "now" as `agora`.
- An edit patch is the five fields the task form always supplies (`CamposTarefa`).

Manager invariant `Valid`:

- task ids are unique;
- project ids are unique;
- no task's update stamp is earlier than its creation stamp.

Every operation preserves it.

## Model

| member | source | states |
|---|---|---|
| Entidades.Tarefa.constructor | src/js/index.js:83-100 | A new task carries the given id and fields. It is pending. Both stamps are the creation instant. |
| Entidades.Tarefa.AlternarStatus | src/js/index.js:102-110 | The completion flag is negated and the update stamp is refreshed. The five editable fields are kept. |
| Entidades.Tarefa.Atualizar | src/js/index.js:116-120 | The five editable fields take the patch's values and the update stamp is refreshed. The completion flag is kept. |
| Entidades.Projeto.constructor | src/js/index.js:124-128 | A new project carries the given id, name and creation stamp. |
| Entidades.Projeto.AtualizarNome | src/js/index.js:134-137 | The name becomes the new name; id and stamp are constants. |
| Sequencias.PrimeiroIndice | src/js/index.js:247 | `findIndex` returns -1 exactly when the value is absent. Otherwise it returns a position holding the value with no earlier occurrence. |
| Sequencias.SubsequenciaTransitiva | src/js/index.js:356-380 | Filtering a filtered list yields a subsequence of the original, so chained `filter` stages keep the list's order. |
| Consulta.Filtrar | src/js/index.js:313 | `filter` keeps tasks in their order (a subsequence), keeps only tasks that pass, and keeps every task that passes. |
| Consulta.FiltrarMultiplicidade | src/js/index.js:313 | `filter` keeps each passing task as often as it occurs in the list, and no failing task, so the result is a sub-multiset of the list. |
| Consulta.CascataParticiona | src/js/index.js:313 | The tasks the cascade keeps plus the removed project's tasks make up the whole list as a multiset. So the list shrinks by exactly the number of that project's tasks. |
| Consulta.Etapa | src/js/index.js:356-380 | A pipeline stage yields a subsequence of its input holding exactly the input's tasks that pass it, each as often as in the input. A stage that is off returns its input itself. |
| Gerenciador.CriterioDoProjeto | src/js/index.js:359-363 | The project stage is on exactly when the selection is truthy (neither null nor ""). |
| Gerenciador.CriterioDeStatus | src/js/index.js:365-371 | The status stage keeps completed tasks exactly for "concluidas" and pending tasks exactly for "pendentes". Any other value, "todas" included, turns it off. |
| Gerenciador.CriterioDePrioridade | src/js/index.js:373-377 | The priority stage is off exactly for "todas". |
| Gerenciador.TresEtapas | src/js/index.js:356-380 | Three stages in a row keep, in order, exactly the tasks that pass all three, each as often as in the input. |
| Gerenciador.GerenciadorTarefas.ObterTarefasFiltradas | src/js/index.js:356-380 | The view is a subsequence of the task list. A task is in it if and only if it is visible under the selection and filters, where visibility is written independently as `Visivel`. With no stage on, the view is the task list itself. |
| Exibicao.Peso | src/js/index.js:447 | The weight table: exactly "alta", "media" and "baixa" have a weight, between 1 and 3. Any other priority has no numeric weight: the lookup gives `undefined`, or an inherited member such as `toString`. The difference is NaN either way. |
| Exibicao.Comparar | src/js/index.js:442-448 | A pending task is placed before a completed one, in whichever order the two are passed. Between tasks of equal status and known priorities, the higher weight comes first, again in both argument orders. When either priority is unknown, the NaN difference reads as 0 (a tie). |
| Exibicao.CompararAntissimetrico | src/js/index.js:442-448 | Swapping the arguments negates the comparator, and a task ties with itself. |
| Consulta.Atende | src/js/index.js:313 | The `filter` callbacks: the project test and the cascade test on `projetoId` (:361, :313), the status tests (:367, :369) and the priority test (:375). |
| Consulta.CriteriosComplementares | src/js/index.js:313 | The cascade keeps exactly the tasks the project test for the removed id would reject. "pendentes" keeps exactly the tasks "concluidas" rejects. |
| Gerenciador.SelecaoAtiva | src/js/index.js:359 | JavaScript truthiness of the selection: neither `null` nor "" selects a project. |
| Gerenciador.GerenciadorTarefas.DevolveAPropriaLista | src/js/index.js:357-379 | The view is the stored array itself exactly when all three stages are off: no truthy selection, a status other than "concluidas" or "pendentes", and priority "todas". |
| Exibicao.Chave | src/js/index.js:442-449 | A task's display rank is below 4 exactly when the task is pending. Its rank modulo 4 is 3 exactly when its priority is outside the weight table. |
| Exibicao.ChaveRespeitaComparar | src/js/index.js:442-449 | The comparator orders two tasks strictly only in the direction of their ranks. For known priorities it agrees exactly with the ranks. |
| Exibicao.OrdemDeExibicaoSegueComparador | src/js/index.js:442-449 | In a display ordering of tasks with known priorities, no task is placed before one the comparator ranks ahead of it. In particular every pending task precedes every completed one. |
| Exibicao.OrdemDeExibicaoUnica | src/js/index.js:442-449 | With known priorities the display ordering is unique: every stable sort with this comparator yields the same list. |
| Exibicao.OrdenadasIguais | src/js/index.js:442-449 | Two rank-ordered lists with the same tasks in each rank, in the same order, are equal. |
| Exibicao.TrocaPreservaGrupos | src/js/index.js:442-449 | Swapping neighbours of different rank keeps the relative order of tied tasks. |
| Exibicao.RecuarUmaPosicao | src/js/index.js:442-449 | One swap of the sort keeps the tasks, their rank groups and the progress of the insertion pass. |
| Exibicao.InserirNaOrdem | src/js/index.js:442-449 | One insertion pass keeps the tasks and each rank group's order. When the prefix is in rank order and every recorded rank is of a known priority, the pass extends that prefix by one. |
| Exibicao.OrdenarParaExibicao | src/js/index.js:442-449 | The in-place sort leaves a permutation of the array. When every priority is known, tied tasks keep their relative order (stable) and ranks are non-decreasing. |
| Exibicao.ObterIconePrioridade | src/js/index.js:540-547 | `alta`, `media` and `baixa` map to the red, yellow and green circles, which are the priorities of weight 3, 2 and 1. Every other value maps to the white circle. |
| Exibicao.Maiuscula | src/js/index.js:555 | An ASCII lower-case letter becomes its upper-case form; any other character is kept. |
| Exibicao.CapitalizarPrimeira | src/js/index.js:554-556 | The length is kept and only the first character changes, to its upper case. The result never starts with an ASCII lower-case letter, and a string whose first character is not one is returned unchanged. The empty string stays empty. |
| Gerenciador.GerenciadorTarefas.constructor | src/js/index.js:141-153 | A new manager has no tasks, no projects, no selection, and both filters at "todas". |
| Gerenciador.GerenciadorTarefas.OrdenarTarefasFiltradas | src/js/index.js:424-449 | The list the page shows is a display ordering of the filtered view. |
| Gerenciador.GerenciadorTarefas.RenderizarTarefas | src/js/index.js:424-449 | A redraw keeps the invariant. It reorders the stored task list for display exactly when the view is that list, and leaves it unchanged otherwise. Projects, selection and filters are unchanged. |
| Gerenciador.GerenciadorTarefas.AdicionarTarefa | src/js/index.js:209-224 | Exactly one new pending task is appended, with the given fields and stamp, and the redraw is applied. The earlier tasks are unchanged. Projects, selection and filters are unchanged. |
| Gerenciador.GerenciadorTarefas.EditarTarefa | src/js/index.js:231-240 | The first task with the id takes the patch, keeps its flag and gets the new stamp, and the redraw is applied. An unknown id changes nothing. No other task can change (frame). |
| Gerenciador.GerenciadorTarefas.RemoverTarefa | src/js/index.js:246-256 | The task at the id's first position is spliced out, the list shrinks by one and the redraw is applied. No task with that id remains. An unknown id changes nothing. |
| Gerenciador.GerenciadorTarefas.AlternarStatusTarefa | src/js/index.js:262-271 | The first task with the id has its flag negated and gets the new stamp, its fields are kept, and the redraw is applied. An unknown id changes nothing. No other task can change (frame). |
| Gerenciador.GerenciadorTarefas.AlternarStatusDuasVezes | src/js/index.js:262-271 | Two toggle calls in a row (a composition, not one function of the page). The same task gets back its original flag and fields, even after the first redraw reordered the list. With an unknown id the task list is unchanged. |
| Gerenciador.GerenciadorTarefas.AdicionarProjeto | src/js/index.js:277-285 | Exactly one project with the given id, name and stamp is appended. Tasks, selection and filters are unchanged. |
| Gerenciador.GerenciadorTarefas.EditarProjeto | src/js/index.js:292-302 | The project with the id gets the new name. Only that project may change (frame), and an unknown id changes nothing. |
| Gerenciador.GerenciadorTarefas.RemoverProjeto | src/js/index.js:308-328 | On a known id: the project is spliced out; exactly the tasks of other projects remain, in order, redrawn; none of its tasks remain; the task count drops by its task count; a selection of it is cleared. An unknown id changes nothing. |
| Gerenciador.GerenciadorTarefas.ExcluirProjetoEm | src/js/index.js:309-317 | The project at its first position is spliced out and a selection pointing at it becomes null; any other selection is kept. |
| Gerenciador.GerenciadorTarefas.DescartarTarefasDoProjeto | src/js/index.js:313 | The task list becomes the cascade's result and shrinks by the project's task count. The invariant is kept. |
| Gerenciador.GerenciadorTarefas.SelecionarProjeto | src/js/index.js:334-339 | The selection is set and the redraw is applied. Projects and filters are unchanged. |
| Gerenciador.GerenciadorTarefas.AplicarFiltro | src/js/index.js:346-350 | "status" and "prioridade" set that filter and no other. Any other kind leaves both filters as they were. The redraw is applied. |
| Gerenciador.CascataPreservaValidade | src/js/index.js:313 | The cascade keeps task ids unique and stamps consistent. It shrinks the list by the project's task count. |
| Gerenciador.SemATarefa | src/js/index.js:249 | Splicing a task out of a list with unique ids removes the only task with that id. |
| Gerenciador.SemOProjeto | src/js/index.js:311 | Splicing a project out of a list with unique ids removes the only project with that id. |
| Gerenciador.PosicaoDoObjeto | src/js/index.js:263 | With unique ids, `find` by a task's id returns that very task. |

## Left out

- Persistence is not modelled: `localStorage`, JSON, `carregarDados` and `salvarDados`. It is an external store; the model has no reload.
- `Logger` is not modelled; it is console output only.
- `gerarId` is not modelled. It reads the clock and `Math.random`, so ids are parameters with a freshness precondition.
- The wall clock (`new Date().toISOString()`) is not modelled. Stamps are the abstract `Instante` supplied by the caller. Edit and toggle require that it is not behind any stored stamp.
- DOM rendering is not modelled: the HTML of `renderizarTarefas`, the empty-list message and its project-name lookup, `renderizarProjetos`, `atualizarSelectProjetos`, `escaparHtml` and date formatting. It is browser output. Only the sort step of `renderizarTarefas` and its effect on the stored list are modelled.
- Modals, forms, dialogs and event handlers are not modelled; they are UI glue. The only part kept is the five-field patch that the task form builds.
- `tarefaEditando` and `projetoEditando` are not modelled. They are UI state that no modelled operation reads.
- Entidades.Tarefa.constructor does not model the default parameters (description "", no date, priority "media", no project). It has two callers. `adicionarTarefa` (src/js/index.js:210) always passes the five fields the form builds. The reload in `carregarDados` (:172) calls `new Tarefa()` with no arguments and overwrites every field with `Object.assign`; it is left out with persistence.
- Entidades.Tarefa.Atualizar does not model `Object.assign` with arbitrary keys. A patch is the five fields the form supplies.
- Exibicao.OrdenarParaExibicao states stability and non-decreasing ranks only when every priority is `alta`, `media` or `baixa`. With any other priority the comparator returns NaN, which `sort` reads as 0. That comparator is not consistent (alta ties with an unknown priority, which ties with baixa, yet alta precedes baixa). The engine then produces an implementation-defined order, so the contract promises only a permutation.
- Exibicao.OrdenarParaExibicao is an insertion sort, not the engine's sort. By `OrdemDeExibicaoUnica`, every stable sort gives the same list when priorities are known.
- Exibicao.ObterIconePrioridade does not model lookups of keys inherited from `Object.prototype`, such as "toString". In the source these return the inherited member instead of the white circle.
- Exibicao.Maiuscula maps only the ASCII letters a-z to A-Z and keeps every other character. `toUpperCase` also upper-cases other scripts ("é" to "É") and expands some letters ("ß" to "SS"); this is not modelled.
- Exibicao.CapitalizarPrimeira upper-cases only ASCII letters. `toUpperCase` on other scripts, on letters that expand (such as "ß"), and on surrogate pairs is not modelled.
- Gerenciador.GerenciadorTarefas.AplicarFiltro does not model other filter kinds. The source stores them as extra keys of `filtros`, which nothing reads.
- Gerenciador.GerenciadorTarefas.SelecionarProjeto accepts any id, as the source does. Whether the id names an existing project is not checked.
