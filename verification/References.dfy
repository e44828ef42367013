// Tasks, pipelines and the references between them: append-only versions and drafts (src/booth_pipeline/store/memory.py),
// the save gate (src/booth_pipeline/service.py), and what a reference means at the moment (src/booth_pipeline/resolve.py).
module References {
  import opened Basics
  import opened Dag
  import Topology

  datatype TaskConfig = TaskConfig(params: map<string, string>, rest: string)

  // Version n of a task or pipeline is versions[n - 1].
  datatype Task = Task(workspace: string, versions: seq<TaskConfig>, draft: Option<TaskConfig>)
  datatype Pipeline = Pipeline(workspace: string, versions: seq<seq<TaskRef>>, draft: Option<seq<TaskRef>>)

  datatype Lib = Lib(tasks: map<string, Task>, pipelines: map<string, Pipeline>)

  // ---- what a reference means ----

  datatype RefError = NoTask | NothingSaved | NoVersion

  // version None: the task's draft.
  datatype Resolved = Resolved(version: Option<nat>, config: TaskConfig)

  predicate HasTask(lib: Lib, workspace: string, id: string) { id in lib.tasks && lib.tasks[id].workspace == workspace }

  predicate HasPipeline(lib: Lib, workspace: string, id: string) { id in lib.pipelines && lib.pipelines[id].workspace == workspace }

  function Resolve(lib: Lib, workspace: string, r: TaskRef): Result<Resolved, RefError> {
    if !HasTask(lib, workspace, r.taskId) then Err(NoTask)
    else
      var t := lib.tasks[r.taskId];
      match r.taskVersion
      case None =>
        if t.draft.Some? then Ok(Resolved(None, t.draft.value))
        else if t.versions == [] then Err(NothingSaved)
        else Ok(Resolved(Some(|t.versions|), t.versions[|t.versions| - 1]))
      case Some(n) => if 1 <= n <= |t.versions| then Ok(Resolved(Some(n), t.versions[n - 1])) else Err(NoVersion)
  }

  predicate Resolves(lib: Lib, workspace: string, r: TaskRef) { Resolve(lib, workspace, r).Ok? }

  predicate AllResolve(lib: Lib, workspace: string, spec: seq<TaskRef>) { forall r :: r in spec ==> Resolves(lib, workspace, r) }

  // The config a node runs with: its own overrides over the task's params, key by key.
  function NodeConfig(config: TaskConfig, r: TaskRef): TaskConfig {
    config.(params := config.params + r.paramOverrides)
  }

  // {key: config} for every node; of equal keys the last.
  function Configs(lib: Lib, workspace: string, spec: seq<TaskRef>): map<string, TaskConfig>
    requires AllResolve(lib, workspace, spec)
  {
    if spec == [] then map[]
    else
      var n := |spec| - 1;
      assert forall r :: r in spec[..n] ==> r in spec;
      assert spec[n] in spec && Resolves(lib, workspace, spec[n]);
      Configs(lib, workspace, spec[..n])[spec[n].key := NodeConfig(Resolve(lib, workspace, spec[n]).value.config, spec[n])]
  }

  lemma {:induction false} ConfigsHave(lib: Lib, workspace: string, spec: seq<TaskRef>, k: string)
    requires AllResolve(lib, workspace, spec)
    ensures k in Configs(lib, workspace, spec) <==> k in Keys(spec)
  {
    if spec != [] {
      var n := |spec| - 1;
      assert spec == spec[..n] + [spec[n]];
      ConfigsHave(lib, workspace, spec[..n], k);
    }
  }

  // Each node has its own: what its reference means now, with the node's overrides applied.
  lemma {:induction false} ConfigsAre(lib: Lib, workspace: string, spec: seq<TaskRef>, i: nat)
    requires AllResolve(lib, workspace, spec) && NoDup(KeySeq(spec)) && i < |spec|
    ensures spec[i].key in Configs(lib, workspace, spec) && Resolves(lib, workspace, spec[i])
    ensures Configs(lib, workspace, spec)[spec[i].key] == NodeConfig(Resolve(lib, workspace, spec[i]).value.config, spec[i])
  {
    var n := |spec| - 1;
    assert spec[i] in spec && spec == spec[..n] + [spec[n]];
    if i < n {
      assert KeySeq(spec)[i] != KeySeq(spec)[n] && KeySeq(spec[..n]) == KeySeq(spec)[..n];
      ConfigsAre(lib, workspace, spec[..n], i);
    }
  }

  datatype ConfigError = Unresolved(error: RefError) | OverridesTooLarge

  // `fits` is what check_params says of a node's merged params (serialisable and within the size cap); a node
  // without overrides is not checked again.
  function ConfigOf(fits: map<string, string> -> bool, lib: Lib, workspace: string, r: TaskRef): Result<TaskConfig, ConfigError> {
    match Resolve(lib, workspace, r)
    case Err(e) => Err(Unresolved(e))
    case Ok(got) =>
      var config := NodeConfig(got.config, r);
      if r.paramOverrides != map[] && !fits(config.params) then Err(OverridesTooLarge) else Ok(config)
  }

  predicate AllConfigured(fits: map<string, string> -> bool, lib: Lib, workspace: string, spec: seq<TaskRef>) {
    forall r :: r in spec ==> ConfigOf(fits, lib, workspace, r).Ok?
  }

  lemma ConfiguredResolves(fits: map<string, string> -> bool, lib: Lib, workspace: string, spec: seq<TaskRef>)
    requires AllConfigured(fits, lib, workspace, spec)
    ensures AllResolve(lib, workspace, spec)
  {
    forall r | r in spec ensures Resolves(lib, workspace, r) {
      assert ConfigOf(fits, lib, workspace, r).Ok?;
    }
  }

  // A spec gets its configs exactly when every reference resolves and what every node's overrides give fits; a node
  // without overrides runs with whatever its task has.
  lemma ConfiguredIff(fits: map<string, string> -> bool, lib: Lib, workspace: string, spec: seq<TaskRef>)
    ensures AllConfigured(fits, lib, workspace, spec) <==>
            AllResolve(lib, workspace, spec) &&
            forall r :: r in spec && r.paramOverrides != map[] ==>
              fits(Resolve(lib, workspace, r).value.config.params + r.paramOverrides)
  {
    hide Resolve;
    if AllConfigured(fits, lib, workspace, spec) {
      ConfiguredResolves(fits, lib, workspace, spec);
      forall r | r in spec && r.paramOverrides != map[] ensures fits(Resolve(lib, workspace, r).value.config.params + r.paramOverrides) {
        assert ConfigOf(fits, lib, workspace, r).Ok?;
      }
    } else {
      var r :| r in spec && ConfigOf(fits, lib, workspace, r).Err?;
      assert Resolves(lib, workspace, r) ==> r.paramOverrides != map[];
    }
  }

  // Raises on the first reference that does not resolve or whose overrides do not fit.
  method ResolveTaskConfigs(fits: map<string, string> -> bool, lib: Lib, workspace: string, spec: seq<TaskRef>)
    returns (r: Result<map<string, TaskConfig>, (nat, ConfigError)>)
    ensures r.Ok? <==> AllConfigured(fits, lib, workspace, spec)
    ensures r.Ok? ==> AllResolve(lib, workspace, spec) && r.value == Configs(lib, workspace, spec)
    ensures r.Err? ==> r.error.0 < |spec| && ConfigOf(fits, lib, workspace, spec[r.error.0]) == Err(r.error.1) &&
                       AllConfigured(fits, lib, workspace, spec[..r.error.0])
  {
    hide Resolve;
    var out: map<string, TaskConfig> := map[];
    for i := 0 to |spec|
      invariant AllConfigured(fits, lib, workspace, spec[..i])
      invariant AllResolve(lib, workspace, spec[..i]) && out == Configs(lib, workspace, spec[..i])
    {
      var got := ConfigOf(fits, lib, workspace, spec[i]);
      assert spec[i] in spec;
      if got.Err? {
        return Err((i, got.error));
      }
      var next := spec[..i + 1];
      assert next == spec[..i] + [spec[i]] && next[..i] == spec[..i];
      out := out[spec[i].key := got.value];
    }
    assert spec[..|spec|] == spec;
    r := Ok(out);
  }

  // ---- the operations ----

  // What may be saved as a spec: sound in structure, every reference resolving now, and compiling.
  ghost predicate Accepted(lib: Lib, workspace: string, spec: seq<TaskRef>) {
    spec != [] && Sound(spec) && AllResolve(lib, workspace, spec)
  }

  predicate References(versions: seq<seq<TaskRef>>, id: string) {
    exists v, r :: v in versions && r in v && r.taskId == id
  }

  predicate Referenced(lib: Lib, id: string) {
    exists p :: p in lib.pipelines && References(lib.pipelines[p].versions, id)
  }

  datatype Step =
    | CreateTask(id: string, workspace: string, first: Option<TaskConfig>)
    | SaveTaskVersion(id: string, workspace: string, config: TaskConfig)
    | SaveTaskDraft(id: string, workspace: string, config: TaskConfig)
    | DeleteTask(id: string, workspace: string)
    | CreatePipeline(id: string, workspace: string, initial: Option<seq<TaskRef>>)
    | SaveVersion(id: string, workspace: string, spec: seq<TaskRef>)
    | SavePipelineDraft(id: string, workspace: string, spec: seq<TaskRef>)
    | DeletePipeline(id: string, workspace: string)

  // Whether the operation is carried out; a refused one changes nothing. The size cap and compilation may refuse more.
  ghost predicate Done(lib: Lib, step: Step) {
    match step
    case CreateTask(id, _, _) => id !in lib.tasks
    case SaveTaskVersion(id, w, _) => HasTask(lib, w, id)
    case SaveTaskDraft(id, w, _) => HasTask(lib, w, id)
    case DeleteTask(id, w) => HasTask(lib, w, id) && !Referenced(lib, id)
    case CreatePipeline(id, w, spec) => id !in lib.pipelines && (spec.Some? ==> Accepted(lib, w, spec.value))
    case SaveVersion(id, w, spec) => HasPipeline(lib, w, id) && Accepted(lib, w, spec)
    case SavePipelineDraft(id, w, spec) => HasPipeline(lib, w, id) && Accepted(lib, w, spec)
    case DeletePipeline(id, w) => HasPipeline(lib, w, id)
  }

  function Grown<T>(versions: seq<T>, v: Option<T>): seq<T> { if v.Some? then versions + [v.value] else versions }

  ghost function After(lib: Lib, step: Step): Lib
    requires Done(lib, step)
  {
    match step
    case CreateTask(id, w, first) => lib.(tasks := lib.tasks[id := Task(w, Grown([], first), first)])
    case SaveTaskVersion(id, w, c) => lib.(tasks := lib.tasks[id := Task(w, lib.tasks[id].versions + [c], Some(c))])
    case SaveTaskDraft(id, _, c) => lib.(tasks := lib.tasks[id := lib.tasks[id].(draft := Some(c))])
    case DeleteTask(id, _) => lib.(tasks := lib.tasks - {id})
    case CreatePipeline(id, w, spec) => lib.(pipelines := lib.pipelines[id := Pipeline(w, Grown([], spec), spec)])
    case SaveVersion(id, w, spec) => lib.(pipelines := lib.pipelines[id := Pipeline(w, lib.pipelines[id].versions + [spec], Some(spec))])
    case SavePipelineDraft(id, _, spec) => lib.(pipelines := lib.pipelines[id := lib.pipelines[id].(draft := Some(spec))])
    case DeletePipeline(id, _) => lib.(pipelines := lib.pipelines - {id})
  }

  datatype SaveError = NotFound | BadStructure(problem: Topology.StructureError) | BadReference(at: nat, error: ConfigError) | DoesNotCompile

  class Library {
    var tasks: map<string, Task>
    var pipelines: map<string, Pipeline>

    function Contents(): Lib
      reads this
    {
      Lib(tasks, pipelines)
    }

    constructor ()
      ensures Contents() == Lib(map[], map[])
    {
      tasks, pipelines := map[], map[];
    }

    // The first reference that does not resolve, if any.
    method CheckTaskRefs(workspace: string, spec: seq<TaskRef>) returns (bad: Option<(nat, RefError)>)
      ensures bad.None? <==> AllResolve(Contents(), workspace, spec)
      ensures bad.Some? ==> bad.value.0 < |spec| && Resolve(Contents(), workspace, spec[bad.value.0]) == Err(bad.value.1) &&
                            AllResolve(Contents(), workspace, spec[..bad.value.0])
    {
      for i := 0 to |spec|
        invariant AllResolve(Contents(), workspace, spec[..i])
      {
        var got := Resolve(Contents(), workspace, spec[i]);
        assert spec[i] in spec;
        if got.Err? {
          return Some((i, got.error));
        }
        assert spec[..i + 1] == spec[..i] + [spec[i]];
      }
      assert spec[..|spec|] == spec;
      bad := None;
    }

    // The gate every pipeline save goes through: structure, references, overrides, compilation.
    method Prepare(fits: map<string, string> -> bool, workspace: string, spec: seq<TaskRef>, compiles: bool) returns (r: Result<(), SaveError>)
      ensures r.Ok? <==> Accepted(Contents(), workspace, spec) && AllConfigured(fits, Contents(), workspace, spec) && compiles
      ensures r.Err? && r.error.BadStructure? ==> Topology.IsFirstProblem(spec, r.error.problem)
      ensures r.Err? && r.error.BadReference? ==>
                Sound(spec) && r.error.at < |spec| && ConfigOf(fits, Contents(), workspace, spec[r.error.at]) == Err(r.error.error)
      ensures r.Err? && r.error.BadReference? && r.error.error == OverridesTooLarge ==> Accepted(Contents(), workspace, spec)
      ensures r.Err? && r.error == DoesNotCompile ==> Accepted(Contents(), workspace, spec) && AllConfigured(fits, Contents(), workspace, spec)
      ensures r.Err? ==> r.error != NotFound
    {
      var structure := Topology.ValidateStructure(spec);
      if structure.Err? {
        return Err(BadStructure(structure.error));
      }
      var bad := CheckTaskRefs(workspace, spec);
      if bad.Some? {
        if AllConfigured(fits, Contents(), workspace, spec) { ConfiguredResolves(fits, Contents(), workspace, spec); }
        return Err(BadReference(bad.value.0, Unresolved(bad.value.1)));
      }
      var configs := ResolveTaskConfigs(fits, Contents(), workspace, spec);
      if configs.Err? {
        return Err(BadReference(configs.error.0, configs.error.1));
      }
      r := if compiles then Ok(()) else Err(DoesNotCompile);
    }

    method SaveVersion(fits: map<string, string> -> bool, id: string, workspace: string, spec: seq<TaskRef>, compiles: bool)
      returns (r: Result<nat, SaveError>)
      modifies this`pipelines
      ensures r.Ok? <==> Done(old(Contents()), Step.SaveVersion(id, workspace, spec)) &&
                         AllConfigured(fits, old(Contents()), workspace, spec) && compiles
      ensures r.Ok? ==> Contents() == After(old(Contents()), Step.SaveVersion(id, workspace, spec))
      ensures r.Ok? ==> id in pipelines && r.value == |pipelines[id].versions| == |old(pipelines)[id].versions| + 1
      ensures r.Err? ==> Contents() == old(Contents())
    {
      if !HasPipeline(Contents(), workspace, id) {
        return Err(NotFound);
      }
      var gate := Prepare(fits, workspace, spec, compiles);
      if gate.Err? {
        return Err(gate.error);
      }
      var p := pipelines[id];
      pipelines := pipelines[id := p.(versions := p.versions + [spec])];
      pipelines := pipelines[id := pipelines[id].(draft := Some(spec))];
      r := Ok(|p.versions| + 1);
    }

    method SavePipelineDraft(fits: map<string, string> -> bool, id: string, workspace: string, spec: seq<TaskRef>, compiles: bool)
      returns (r: Result<(), SaveError>)
      modifies this`pipelines
      ensures r.Ok? <==> Done(old(Contents()), Step.SavePipelineDraft(id, workspace, spec)) &&
                         AllConfigured(fits, old(Contents()), workspace, spec) && compiles
      ensures Contents() == if r.Ok? then After(old(Contents()), Step.SavePipelineDraft(id, workspace, spec)) else old(Contents())
    {
      if !HasPipeline(Contents(), workspace, id) {
        return Err(NotFound);
      }
      r := Prepare(fits, workspace, spec, compiles);
      if r.Ok? {
        pipelines := pipelines[id := pipelines[id].(draft := Some(spec))];
      }
    }

    method SaveTaskVersion(id: string, workspace: string, config: TaskConfig) returns (version: Option<nat>)
      modifies this`tasks
      ensures version.Some? <==> Done(old(Contents()), Step.SaveTaskVersion(id, workspace, config))
      ensures version.Some? ==> version.value == |old(tasks)[id].versions| + 1
      ensures Contents() == if version.Some? then After(old(Contents()), Step.SaveTaskVersion(id, workspace, config)) else old(Contents())
    {
      if !HasTask(Contents(), workspace, id) {
        return None;
      }
      var t := tasks[id];
      tasks := tasks[id := t.(versions := t.versions + [config])];
      tasks := tasks[id := tasks[id].(draft := Some(config))];
      version := Some(|t.versions| + 1);
    }

    // Err is the source's InUse.
    method DeleteTask(id: string, workspace: string) returns (r: Result<bool, ()>)
      modifies this`tasks
      ensures r == Ok(true) <==> Done(old(Contents()), Step.DeleteTask(id, workspace))
      ensures r == Ok(false) <==> !HasTask(old(Contents()), workspace, id)
      ensures r.Err? <==> HasTask(old(Contents()), workspace, id) && Referenced(old(Contents()), id)
      ensures Contents() == if r == Ok(true) then After(old(Contents()), Step.DeleteTask(id, workspace)) else old(Contents())
    {
      if !HasTask(Contents(), workspace, id) {
        return Ok(false);
      }
      if Referenced(Contents(), id) {
        return Err(());
      }
      tasks := tasks - {id};
      r := Ok(true);
    }
  }

  // ---- over any sequence of whole operations ----

  predicate Creates(step: Step) { step.CreateTask? || step.CreatePipeline? }

  // A new id is one never used before.
  ghost predicate IsRun(states: seq<Lib>, steps: seq<Step>) {
    && |states| == |steps| + 1 && states[0] == Lib(map[], map[])
    && (forall k :: 0 <= k < |steps| ==> states[k + 1] == if Done(states[k], steps[k]) then After(states[k], steps[k]) else states[k])
    && (forall i, k :: 0 <= i < k < |steps| && Creates(steps[k]) && Creates(steps[i]) ==> steps[i].id != steps[k].id)
  }

  // A task keeps its workspace and versions, gains more, and never loses its draft.
  predicate TaskGrows(t: Task, u: Task) {
    t.workspace == u.workspace && t.versions <= u.versions && (t.draft.Some? ==> u.draft.Some?)
  }

  ghost predicate Keeps(a: Lib, b: Lib, id: string) { id in a.tasks && id in b.tasks ==> TaskGrows(a.tasks[id], b.tasks[id]) }

  lemma GrowthKeepsResolving(a: Lib, b: Lib, workspace: string, r: TaskRef)
    requires Resolves(a, workspace, r) && r.taskId in b.tasks && Keeps(a, b, r.taskId)
    ensures Resolves(b, workspace, r)
    ensures r.taskVersion.Some? ==> Resolve(b, workspace, r) == Resolve(a, workspace, r)
  {
  }

  lemma StepKeeps(lib: Lib, step: Step, id: string)
    requires Done(lib, step) && id in lib.tasks
    ensures id in After(lib, step).tasks <==> !(step.DeleteTask? && step.id == id)
    ensures Keeps(lib, After(lib, step), id)
  {
  }

  // Every reference in every saved version resolves, and every saved version is sound.
  ghost predicate SavedResolve(lib: Lib) {
    forall p, v :: p in lib.pipelines && v in lib.pipelines[p].versions ==> Accepted(lib, lib.pipelines[p].workspace, v)
  }

  // A draft's references resolve as long as their tasks exist.
  ghost predicate DraftsResolve(lib: Lib) {
    forall p :: p in lib.pipelines && lib.pipelines[p].draft.Some? ==>
      forall r :: r in lib.pipelines[p].draft.value && HasTask(lib, lib.pipelines[p].workspace, r.taskId) ==>
        Resolves(lib, lib.pipelines[p].workspace, r)
  }

  lemma AcceptedKept(lib: Lib, step: Step, p: string, v: seq<TaskRef>)
    requires Done(lib, step) && p in lib.pipelines && v in lib.pipelines[p].versions
    requires Accepted(lib, lib.pipelines[p].workspace, v)
    ensures Accepted(After(lib, step), lib.pipelines[p].workspace, v)
  {
    var w := lib.pipelines[p].workspace;
    forall r | r in v ensures Resolves(After(lib, step), w, r) {
      assert Resolves(lib, w, r);
      StepKeeps(lib, step, r.taskId);
      assert References(lib.pipelines[p].versions, r.taskId);
      GrowthKeepsResolving(lib, After(lib, step), w, r);
    }
  }

  lemma AcceptedForPipelines(lib: Lib, step: Step, w: string, v: seq<TaskRef>)
    requires Done(lib, step) && (step.CreatePipeline? || step.SaveVersion?) && Accepted(lib, w, v)
    ensures Accepted(After(lib, step), w, v)
  {
    forall r | r in v ensures Resolves(After(lib, step), w, r) { assert Resolves(lib, w, r); }
  }

  lemma SavedNext(lib: Lib, step: Step)
    requires Done(lib, step) && SavedResolve(lib)
    ensures SavedResolve(After(lib, step))
  {
    var q := After(lib, step);
    forall p, v | p in q.pipelines && v in q.pipelines[p].versions ensures Accepted(q, q.pipelines[p].workspace, v) {
      if p in lib.pipelines && v in lib.pipelines[p].versions && lib.pipelines[p].workspace == q.pipelines[p].workspace {
        AcceptedKept(lib, step, p, v);
      } else {
        NewVersion(lib, step, p, v);
        AcceptedForPipelines(lib, step, q.pipelines[p].workspace, v);
      }
    }
  }

  lemma NewVersion(lib: Lib, step: Step, p: string, v: seq<TaskRef>)
    requires Done(lib, step) && p in After(lib, step).pipelines && v in After(lib, step).pipelines[p].versions
    requires !(p in lib.pipelines && v in lib.pipelines[p].versions && lib.pipelines[p].workspace == After(lib, step).pipelines[p].workspace)
    ensures (step.CreatePipeline? || step.SaveVersion?) && Accepted(lib, After(lib, step).pipelines[p].workspace, v)
  {
    if step.SaveVersion? {
      assert forall x :: x in lib.pipelines[step.id].versions + [step.spec] <==> x in lib.pipelines[step.id].versions || x == step.spec;
    }
  }

  lemma DraftsNext(lib: Lib, step: Step)
    requires Done(lib, step) && DraftsResolve(lib)
    requires step.CreateTask? ==> forall p :: p in lib.pipelines && lib.pipelines[p].draft.Some? ==>
               forall r :: r in lib.pipelines[p].draft.value ==> r.taskId != step.id
    ensures DraftsResolve(After(lib, step))
  {
    var q := After(lib, step);
    forall p, r | p in q.pipelines && q.pipelines[p].draft.Some? && r in q.pipelines[p].draft.value && HasTask(q, q.pipelines[p].workspace, r.taskId)
      ensures Resolves(q, q.pipelines[p].workspace, r)
    {
      var w := q.pipelines[p].workspace;
      if p in lib.pipelines && lib.pipelines[p] == q.pipelines[p] {
        assert r.taskId in lib.tasks;
        StepKeeps(lib, step, r.taskId);
        assert HasTask(lib, w, r.taskId);
        GrowthKeepsResolving(lib, q, w, r);
      } else {
        assert q.tasks == lib.tasks;
        assert Resolves(lib, w, r) <==> Resolves(q, w, r);
      }
    }
  }

  predicate Made(steps: seq<Step>, k: nat, id: string)
    requires k <= |steps|
  {
    exists i :: 0 <= i < k && Creates(steps[i]) && steps[i].id == id
  }

  ghost predicate IdsMade(lib: Lib, steps: seq<Step>, k: nat)
    requires k <= |steps|
  {
    && (forall id :: id in lib.tasks || id in lib.pipelines ==> Made(steps, k, id))
    && (forall p, r :: p in lib.pipelines && lib.pipelines[p].draft.Some? && r in lib.pipelines[p].draft.value ==> Made(steps, k, r.taskId))
  }

  lemma IdsMadeNext(lib: Lib, steps: seq<Step>, k: nat)
    requires k < |steps| && Done(lib, steps[k]) && IdsMade(lib, steps, k)
    ensures IdsMade(After(lib, steps[k]), steps, k + 1)
  {
    var q, step := After(lib, steps[k]), steps[k];
    assert forall id :: Made(steps, k, id) ==> Made(steps, k + 1, id);
    assert Creates(step) ==> Made(steps, k + 1, step.id);
    forall p, r | p in q.pipelines && q.pipelines[p].draft.Some? && r in q.pipelines[p].draft.value ensures Made(steps, k, r.taskId) {
      if !(p in lib.pipelines && lib.pipelines[p].draft == q.pipelines[p].draft) {
        assert Resolves(lib, q.pipelines[p].workspace, r);
      }
    }
  }

  lemma StateNext(states: seq<Lib>, steps: seq<Step>, k: nat)
    requires IsRun(states, steps) && k < |steps| && IdsMade(states[k], steps, k) && DraftsResolve(states[k]) && SavedResolve(states[k])
    ensures IdsMade(states[k + 1], steps, k + 1) && DraftsResolve(states[k + 1]) && SavedResolve(states[k + 1])
  {
    var lib, step := states[k], steps[k];
    assert forall id :: Made(steps, k, id) ==> Made(steps, k + 1, id);
    if Done(lib, step) {
      IdsMadeNext(lib, steps, k);
      SavedNext(lib, step);
      if step.CreateTask? { assert !Made(steps, k, step.id); }
      DraftsNext(lib, step);
    }
  }

  lemma {:induction false} Reachable(states: seq<Lib>, steps: seq<Step>, k: nat)
    requires IsRun(states, steps) && k < |states|
    ensures IdsMade(states[k], steps, k) && DraftsResolve(states[k]) && SavedResolve(states[k])
  {
    if k > 0 {
      hide IdsMade, DraftsResolve, SavedResolve;
      Reachable(states, steps, k - 1);
      StateNext(states, steps, k - 1);
    }
  }

  // Saved references never dangle: after any operations, every reference in every saved version resolves.
  lemma SavedReferencesResolve(states: seq<Lib>, steps: seq<Step>, k: nat, p: string, n: nat, r: TaskRef)
    requires IsRun(states, steps) && k < |states|
    requires p in states[k].pipelines && n < |states[k].pipelines[p].versions| && r in states[k].pipelines[p].versions[n]
    ensures Resolves(states[k], states[k].pipelines[p].workspace, r) && Sound(states[k].pipelines[p].versions[n])
  {
    Reachable(states, steps, k);
    assert Accepted(states[k], states[k].pipelines[p].workspace, states[k].pipelines[p].versions[n]);
  }

  // A draft's reference resolves exactly when its task has not been deleted.
  lemma DraftReferenceResolvesIff(states: seq<Lib>, steps: seq<Step>, k: nat, p: string, r: TaskRef)
    requires IsRun(states, steps) && k < |states|
    requires p in states[k].pipelines && states[k].pipelines[p].draft.Some? && r in states[k].pipelines[p].draft.value
    ensures Resolves(states[k], states[k].pipelines[p].workspace, r) <==> HasTask(states[k], states[k].pipelines[p].workspace, r.taskId)
  {
    Reachable(states, steps, k);
  }

  lemma NotMadeAgain(states: seq<Lib>, steps: seq<Step>, i: nat, k: nat, id: string)
    requires IsRun(states, steps) && i <= k < |steps| && Made(steps, i, id)
    ensures Creates(steps[k]) ==> steps[k].id != id
  {
    var h :| 0 <= h < i && Creates(steps[h]) && steps[h].id == id;
  }

  lemma AppearsWhenMade(lib: Lib, step: Step, id: string)
    requires Done(lib, step)
    ensures id in After(lib, step).tasks && id !in lib.tasks ==> Creates(step) && step.id == id
    ensures id in After(lib, step).pipelines && id !in lib.pipelines ==> Creates(step) && step.id == id
  {
  }

  // While a task exists its versions only grow at the end; an id once deleted does not come back.
  lemma {:induction false} TasksOnlyGrow(states: seq<Lib>, steps: seq<Step>, i: nat, k: nat, id: string)
    requires IsRun(states, steps) && i <= k < |states| && id in states[i].tasks && id in states[k].tasks
    ensures TaskGrows(states[i].tasks[id], states[k].tasks[id])
    ensures forall j :: i <= j <= k ==> id in states[j].tasks
    decreases k - i
  {
    if i < k {
      var lib, step := states[k - 1], steps[k - 1];
      Reachable(states, steps, i);
      assert Made(steps, i, id);
      NotMadeAgain(states, steps, i, k - 1, id);
      if Done(lib, step) { AppearsWhenMade(lib, step, id); }
      if id in lib.tasks {
        TasksOnlyGrow(states, steps, i, k - 1, id);
        if Done(lib, step) { StepKeeps(lib, step, id); }
      }
    }
  }

  // A pinned reference means the same config for as long as its task exists.
  lemma PinnedReferenceIsStable(states: seq<Lib>, steps: seq<Step>, i: nat, k: nat, workspace: string, r: TaskRef)
    requires IsRun(states, steps) && i <= k < |states|
    requires r.taskVersion.Some? && Resolves(states[i], workspace, r)
    ensures Resolve(states[k], workspace, r) == (if r.taskId in states[k].tasks then Resolve(states[i], workspace, r) else Err(NoTask))
  {
    if r.taskId in states[k].tasks {
      TasksOnlyGrow(states, steps, i, k, r.taskId);
      GrowthKeepsResolving(states[i], states[k], workspace, r);
    }
  }

  // ---- what a reference means, by what was saved ----

  // Step i saves config c as version n of the task, its draft with it.
  ghost predicate SavesVersion(states: seq<Lib>, steps: seq<Step>, i: nat, id: string, workspace: string, n: nat, c: TaskConfig)
    requires |states| == |steps| + 1 && i < |steps|
  {
    && Done(states[i], steps[i])
    && ((steps[i] == SaveTaskVersion(id, workspace, c) && id in states[i].tasks && n == |states[i].tasks[id].versions| + 1)
        || (steps[i] == CreateTask(id, workspace, Some(c)) && n == 1))
  }

  // Step i saves config c as the task's draft, as a version or not.
  ghost predicate SavesDraft(states: seq<Lib>, steps: seq<Step>, i: nat, id: string, workspace: string, c: TaskConfig)
    requires |states| == |steps| + 1 && i < |steps|
  {
    && Done(states[i], steps[i])
    && (steps[i] == SaveTaskVersion(id, workspace, c) || steps[i] == CreateTask(id, workspace, Some(c)) || steps[i] == SaveTaskDraft(id, workspace, c))
  }

  lemma SavedVersionIsThere(states: seq<Lib>, steps: seq<Step>, i: nat, id: string, workspace: string, n: nat, c: TaskConfig)
    requires IsRun(states, steps) && i < |steps| && SavesVersion(states, steps, i, id, workspace, n, c)
    ensures var t := states[i + 1].tasks; id in t && t[id].workspace == workspace && |t[id].versions| == n && t[id].versions[n - 1] == c
  {
    assert states[i + 1] == After(states[i], steps[i]);
  }

  // A reference pinned to version n means the config that was saved as version n, for as long as the task is there.
  lemma PinMeansWhatWasSaved(states: seq<Lib>, steps: seq<Step>, i: nat, k: nat, r: TaskRef, workspace: string, n: nat, c: TaskConfig)
    requires IsRun(states, steps) && i < k < |states| && SavesVersion(states, steps, i, r.taskId, workspace, n, c)
    requires r.taskVersion == Some(n) && r.taskId in states[k].tasks
    ensures Resolve(states[k], workspace, r) == Ok(Resolved(Some(n), c))
  {
    SavedVersionIsThere(states, steps, i, r.taskId, workspace, n, c);
    TasksOnlyGrow(states, steps, i + 1, k, r.taskId);
    var before, after := states[i + 1].tasks[r.taskId], states[k].tasks[r.taskId];
    assert before.versions <= after.versions && after.versions[n - 1] == before.versions[n - 1];
  }

  // No step from i on, up to k, saves the task's draft.
  ghost predicate NoLaterSave(states: seq<Lib>, steps: seq<Step>, i: nat, k: nat, id: string)
    requires |states| == |steps| + 1 && k <= |steps|
  {
    forall j, w, c :: i <= j < k ==> !SavesDraft(states, steps, j, id, w, c)
  }

  lemma DraftStays(lib: Lib, step: Step, id: string)
    requires Done(lib, step) && id in lib.tasks && id in After(lib, step).tasks
    requires !(step.SaveTaskVersion? && step.id == id) && !(step.SaveTaskDraft? && step.id == id)
    ensures After(lib, step).tasks[id].draft == lib.tasks[id].draft
  {
  }

  lemma {:induction false} DraftIsLastSave(states: seq<Lib>, steps: seq<Step>, i: nat, k: nat, id: string, workspace: string, c: TaskConfig)
    requires IsRun(states, steps) && i < k < |states| && SavesDraft(states, steps, i, id, workspace, c)
    requires NoLaterSave(states, steps, i + 1, k, id) && id in states[k].tasks
    ensures states[k].tasks[id].draft == Some(c) && states[k].tasks[id].workspace == workspace
    decreases k
  {
    if k == i + 1 {
      assert states[k] == After(states[i], steps[i]);
    } else {
      var lib, step := states[k - 1], steps[k - 1];
      StillKnown(states, steps, i, k, id, workspace, c);
      assert forall j, w, d :: i + 1 <= j < k - 1 ==> !SavesDraft(states, steps, j, id, w, d);
      DraftIsLastSave(states, steps, i, k - 1, id, workspace, c);
      if Done(lib, step) {
        if (step.SaveTaskVersion? || step.SaveTaskDraft?) && step.id == id {
          assert SavesDraft(states, steps, k - 1, id, step.workspace, step.config);
          assert false;
        }
        DraftStays(lib, step, id);
        StepKeeps(lib, step, id);
      }
    }
  }

  lemma StillKnown(states: seq<Lib>, steps: seq<Step>, i: nat, k: nat, id: string, workspace: string, c: TaskConfig)
    requires IsRun(states, steps) && i + 1 < k < |states| && SavesDraft(states, steps, i, id, workspace, c) && id in states[k].tasks
    ensures id in states[k - 1].tasks
  {
    assert states[i + 1] == After(states[i], steps[i]) && id in states[i + 1].tasks;
    TasksOnlyGrow(states, steps, i + 1, k, id);
  }

  // A "latest" reference means the last config that was saved of its task, as a version or as the draft.
  lemma LatestMeansLastSave(states: seq<Lib>, steps: seq<Step>, i: nat, k: nat, r: TaskRef, workspace: string, c: TaskConfig)
    requires IsRun(states, steps) && i < k < |states| && SavesDraft(states, steps, i, r.taskId, workspace, c)
    requires NoLaterSave(states, steps, i + 1, k, r.taskId) && r.taskVersion.None? && r.taskId in states[k].tasks
    ensures Resolve(states[k], workspace, r) == Ok(Resolved(None, c))
  {
    DraftIsLastSave(states, steps, i, k, r.taskId, workspace, c);
  }

  // A node's params: its own override where it has one, else the task's; the rest is the task's.
  lemma NodeParamsAre(config: TaskConfig, r: TaskRef, key: string)
    ensures var params := NodeConfig(config, r).params;
            && (key in params <==> key in r.paramOverrides || key in config.params)
            && (key in r.paramOverrides ==> params[key] == r.paramOverrides[key])
            && (key in config.params && key !in r.paramOverrides ==> params[key] == config.params[key])
            && NodeConfig(config, r).rest == config.rest
  {
  }

  // A spec saved as version n of a pipeline is version n for as long as the pipeline is there.
  lemma SavedSpecIsKept(states: seq<Lib>, steps: seq<Step>, i: nat, k: nat, id: string, workspace: string, spec: seq<TaskRef>)
    requires IsRun(states, steps) && i < k < |states| && steps[i] == SaveVersion(id, workspace, spec) && Done(states[i], steps[i])
    requires id in states[k].pipelines
    ensures var n := |states[i].pipelines[id].versions|; n < |states[k].pipelines[id].versions| && states[k].pipelines[id].versions[n] == spec
  {
    assert states[i + 1] == After(states[i], steps[i]);
    PipelinesOnlyGrow(states, steps, i + 1, k, id);
    var before, after := states[i + 1].pipelines[id].versions, states[k].pipelines[id].versions;
    assert before <= after && before[|before| - 1] == spec == after[|before| - 1];
  }

  // A spec that resolved once resolves later exactly when the tasks it names are all still there.
  lemma SpecResolvesIff(states: seq<Lib>, steps: seq<Step>, i: nat, k: nat, workspace: string, spec: seq<TaskRef>)
    requires IsRun(states, steps) && i <= k < |states| && AllResolve(states[i], workspace, spec)
    ensures AllResolve(states[k], workspace, spec) <==> forall r :: r in spec ==> r.taskId in states[k].tasks
  {
    forall r | r in spec ensures Resolves(states[k], workspace, r) <==> r.taskId in states[k].tasks {
      assert Resolves(states[i], workspace, r);
      if r.taskId in states[k].tasks {
        TasksOnlyGrow(states, steps, i, k, r.taskId);
        GrowthKeepsResolving(states[i], states[k], workspace, r);
      }
    }
  }

  lemma PipelineStepKeeps(lib: Lib, step: Step, id: string)
    requires Done(lib, step) && id in lib.pipelines && id in After(lib, step).pipelines
    ensures lib.pipelines[id].versions <= After(lib, step).pipelines[id].versions
  {
  }

  lemma {:induction false} PipelinesOnlyGrow(states: seq<Lib>, steps: seq<Step>, i: nat, k: nat, id: string)
    requires IsRun(states, steps) && i <= k < |states| && id in states[i].pipelines && id in states[k].pipelines
    ensures states[i].pipelines[id].versions <= states[k].pipelines[id].versions
    decreases k - i
  {
    if i < k {
      var lib, step := states[k - 1], steps[k - 1];
      Reachable(states, steps, i);
      assert Made(steps, i, id);
      NotMadeAgain(states, steps, i, k - 1, id);
      if Done(lib, step) { AppearsWhenMade(lib, step, id); }
      if id in lib.pipelines {
        PipelinesOnlyGrow(states, steps, i, k - 1, id);
        if Done(lib, step) { PipelineStepKeeps(lib, step, id); }
      }
    }
  }

  // ---- where the claim would be false ----

  function LatestOf(task: string): TaskRef { TaskRef("a", task, None, [], Position(0, 0), map[]) }

  lemma OneNodeIsSound(r: TaskRef)
    requires r.dependsOn == []
    ensures Sound([r])
  {
    RankedIsAcyclic([r], _ => 0);
  }

  // A draft can dangle: only saved versions keep a task from being deleted.
  lemma DraftCanDangle(config: TaskConfig)
    ensures var r := LatestOf("t");
            var lib := Lib(map["t" := Task("w", [config], Some(config))], map["p" := Pipeline("w", [], None)]);
            var save, del := SavePipelineDraft("p", "w", [r]), DeleteTask("t", "w");
            && Done(lib, save) && Done(After(lib, save), del)
            && !Resolves(After(After(lib, save), del), "w", r)
  {
    OneNodeIsSound(LatestOf("t"));
  }
}
