// Saving a pipeline as it really happens: the service checks a spec's structure, reads each reference with its own
// call to the store, and stores the version and then the draft with later calls (src/booth_pipeline/service.py),
// other requests in between. The operations themselves are those of References.
module SplitSaves {
  import opened Basics
  import opened Dag
  import opened References

  // A spec of sound structure that some request holds; its first `read` references were found to resolve.
  datatype Save = Save(workspace: string, spec: seq<TaskRef>, read: nat, inserted: bool)

  datatype Sys = Sys(lib: Lib, saves: map<string, Save>)

  // `save` names the request, `id` the pipeline. Whole operations are those that store no checked spec.
  datatype SplitStep =
    | Whole(op: Step)
    | Begin(save: string, workspace: string, spec: seq<TaskRef>)
    | Read(save: string)
    | Insert(save: string, id: string)
    | StoreDraft(save: string, id: string)
    | Drop(save: string)

  predicate IsWhole(op: Step) {
    !op.SaveVersion? && !op.SavePipelineDraft? && (op.CreatePipeline? ==> op.initial.None?)
  }

  predicate Checked(s: Sys, save: string) { save in s.saves && s.saves[save].read == |s.saves[save].spec| }

  // Whether the step does anything: a check may find a problem, and a pipeline may be gone.
  ghost predicate Works(s: Sys, step: SplitStep) {
    match step
    case Whole(op) => IsWhole(op) && Done(s.lib, op)
    case Begin(save, w, spec) => spec != [] && Sound(spec)
    case Read(save) =>
      save in s.saves && s.saves[save].read < |s.saves[save].spec| && Resolves(s.lib, s.saves[save].workspace, NextRef(s.saves[save]))
    case Insert(save, id) => Checked(s, save) && !s.saves[save].inserted && HasPipeline(s.lib, s.saves[save].workspace, id)
    case StoreDraft(save, id) => Checked(s, save) && HasPipeline(s.lib, s.saves[save].workspace, id)
    case Drop(save) => save in s.saves
  }

  function NextRef(save: Save): TaskRef
    requires save.read < |save.spec|
  {
    save.spec[save.read]
  }

  ghost function Next(s: Sys, step: SplitStep): Sys {
    if !Works(s, step) then s
    else match step
      case Whole(op) => s.(lib := After(s.lib, op))
      case Begin(save, w, spec) => s.(saves := s.saves[save := Save(w, spec, 0, false)])
      case Read(save) => s.(saves := s.saves[save := s.saves[save].(read := s.saves[save].read + 1)])
      case Insert(save, id) =>
        var p := s.lib.pipelines[id];
        s.(lib := s.lib.(pipelines := s.lib.pipelines[id := p.(versions := p.versions + [s.saves[save].spec])]),
           saves := s.saves[save := s.saves[save].(inserted := true)])
      case StoreDraft(save, id) =>
        s.(lib := s.lib.(pipelines := s.lib.pipelines[id := s.lib.pipelines[id].(draft := Some(s.saves[save].spec))]))
      case Drop(save) => s.(saves := s.saves - {save})
  }

  predicate CreatesId(step: SplitStep, id: string) { step.Whole? && Creates(step.op) && step.op.id == id }

  predicate Begins(step: SplitStep, save: string) { step.Begin? && step.save == save }

  // A new id, and a new request's name, is one never used before.
  ghost predicate IsRun(states: seq<Sys>, steps: seq<SplitStep>) {
    && |states| == |steps| + 1 && states[0] == Sys(Lib(map[], map[]), map[])
    && (forall k :: 0 <= k < |steps| ==> states[k + 1] == Next(states[k], steps[k]))
    && (forall i, k :: 0 <= i < k < |steps| && steps[k].Whole? && Creates(steps[k].op) ==> !CreatesId(steps[i], steps[k].op.id))
    && (forall i, k :: 0 <= i < k < |steps| && steps[k].Begin? ==> !Begins(steps[i], steps[k].save))
  }

  predicate Made(steps: seq<SplitStep>, k: nat, id: string)
    requires k <= |steps|
  {
    exists i :: 0 <= i < k && CreatesId(steps[i], id)
  }

  predicate Begun(steps: seq<SplitStep>, k: nat, save: string)
    requires k <= |steps|
  {
    exists i :: 0 <= i < k && Begins(steps[i], save)
  }

  predicate StillThere(lib: Lib, spec: seq<TaskRef>) { forall r :: r in spec ==> r.taskId in lib.tasks }

  // ---- what every state has ----

  // References that were found to resolve still do, as long as their tasks are there.
  ghost predicate StayResolved(lib: Lib, w: string, refs: seq<TaskRef>) {
    forall r :: r in refs && r.taskId in lib.tasks ==> Resolves(lib, w, r)
  }

  ghost predicate Held(lib: Lib, save: Save) {
    save.spec != [] && Sound(save.spec) && save.read <= |save.spec| && StayResolved(lib, save.workspace, save.spec[..save.read])
  }

  ghost predicate Ids(s: Sys, steps: seq<SplitStep>, k: nat)
    requires k <= |steps|
  {
    && (forall id :: id in s.lib.tasks ==> Made(steps, k, id))
    && (forall save :: save in s.saves ==> Begun(steps, k, save) && s.saves[save].read <= |s.saves[save].spec|)
    && (forall save, n :: save in s.saves && 0 <= n < s.saves[save].read ==> Made(steps, k, s.saves[save].spec[n].taskId))
  }

  ghost predicate AllHeld(s: Sys) { forall save :: save in s.saves ==> Held(s.lib, s.saves[save]) }

  lemma HeldResolvesIff(lib: Lib, save: Save)
    requires Held(lib, save) && save.read == |save.spec|
    ensures Accepted(lib, save.workspace, save.spec) <==> StillThere(lib, save.spec)
  {
    assert save.spec[..save.read] == save.spec;
    if AllResolve(lib, save.workspace, save.spec) {
      forall r | r in save.spec ensures r.taskId in lib.tasks { assert Resolves(lib, save.workspace, r); }
    }
  }

  lemma StayResolvedNext(s: Sys, steps: seq<SplitStep>, k: nat, w: string, refs: seq<TaskRef>)
    requires k < |steps| && StayResolved(s.lib, w, refs) && forall r :: r in refs ==> Made(steps, k, r.taskId)
    requires steps[k].Whole? && Creates(steps[k].op) ==> !Made(steps, k, steps[k].op.id)
    ensures StayResolved(Next(s, steps[k]).lib, w, refs)
  {
    var t, step := Next(s, steps[k]), steps[k];
    forall r | r in refs && r.taskId in t.lib.tasks ensures Resolves(t.lib, w, r) {
      if Works(s, step) && step.Whole? {
        AppearsWhenMade(s.lib, step.op, r.taskId);
        StepKeeps(s.lib, step.op, r.taskId);
        GrowthKeepsResolving(s.lib, t.lib, w, r);
      } else {
        assert t.lib.tasks == s.lib.tasks;
        assert Resolve(t.lib, w, r) == Resolve(s.lib, w, r);
      }
    }
  }

  lemma MadeNext(steps: seq<SplitStep>, k: nat)
    requires k < |steps|
    ensures forall id :: Made(steps, k, id) ==> Made(steps, k + 1, id)
    ensures forall id :: CreatesId(steps[k], id) ==> Made(steps, k + 1, id)
    ensures forall save :: Begun(steps, k, save) || Begins(steps[k], save) ==> Begun(steps, k + 1, save)
  {
  }

  lemma IdsNext(s: Sys, steps: seq<SplitStep>, k: nat)
    requires k < |steps| && Ids(s, steps, k)
    ensures Ids(Next(s, steps[k]), steps, k + 1)
  {
    var t, step := Next(s, steps[k]), steps[k];
    MadeNext(steps, k);
    forall id | id in t.lib.tasks ensures Made(steps, k + 1, id) {
      if id !in s.lib.tasks { AppearsWhenMade(s.lib, step.op, id); }
    }
    forall save, n | save in t.saves && 0 <= n < t.saves[save].read ensures Made(steps, k + 1, t.saves[save].spec[n].taskId) {
      if step.Read? && step.save == save && Works(s, step) && n == s.saves[save].read { assert t.saves[save].spec[n].taskId in s.lib.tasks; }
    }
  }

  lemma ReadSoFar(s: Sys, steps: seq<SplitStep>, k: nat, save: string)
    requires k <= |steps| && Ids(s, steps, k) && save in s.saves
    ensures s.saves[save].read <= |s.saves[save].spec|
    ensures forall r :: r in s.saves[save].spec[..s.saves[save].read] ==> Made(steps, k, r.taskId)
  {
    var was := s.saves[save];
    forall r | r in was.spec[..was.read] ensures Made(steps, k, r.taskId) {
      var n :| 0 <= n < was.read && was.spec[..was.read][n] == r;
      assert was.spec[n] == r;
    }
  }

  lemma OneHeldNext(s: Sys, steps: seq<SplitStep>, k: nat, save: string)
    requires k < |steps| && Ids(s, steps, k) && AllHeld(s) && save in s.saves && save in Next(s, steps[k]).saves
    requires steps[k].Whole? && Creates(steps[k].op) ==> !Made(steps, k, steps[k].op.id)
    requires !(Begins(steps[k], save) && Works(s, steps[k]))
    ensures Held(Next(s, steps[k]).lib, Next(s, steps[k]).saves[save])
  {
    var t, step, was := Next(s, steps[k]), steps[k], s.saves[save];
    var done := was.spec[..was.read];
    ReadSoFar(s, steps, k, save);
    StayResolvedNext(s, steps, k, was.workspace, done);
    if step.Read? && save == step.save && Works(s, step) {
      assert t.lib == s.lib && was.spec[..was.read + 1] == done + [NextRef(was)];
    } else {
      assert t.saves[save] == was || t.saves[save] == was.(inserted := true);
    }
    hide Ids, Made, Sound, Next, Works;
  }

  lemma AllHeldNext(s: Sys, steps: seq<SplitStep>, k: nat)
    requires k < |steps| && Ids(s, steps, k) && AllHeld(s)
    requires steps[k].Whole? && Creates(steps[k].op) ==> !Made(steps, k, steps[k].op.id)
    ensures AllHeld(Next(s, steps[k]))
  {
    var t, step := Next(s, steps[k]), steps[k];
    forall save | save in t.saves ensures Held(t.lib, t.saves[save]) {
      if Begins(step, save) && Works(s, step) {
        assert t.saves[save].spec[..0] == [];
      } else {
        OneHeldNext(s, steps, k, save);
      }
    }
  }

  lemma NothingYet(steps: seq<SplitStep>)
    ensures Ids(Sys(Lib(map[], map[]), map[]), steps, 0) && AllHeld(Sys(Lib(map[], map[]), map[]))
  {
  }

  lemma ReachableNext(states: seq<Sys>, steps: seq<SplitStep>, k: nat)
    requires IsRun(states, steps) && k < |steps| && Ids(states[k], steps, k) && AllHeld(states[k])
    ensures Ids(states[k + 1], steps, k + 1) && AllHeld(states[k + 1])
  {
    assert states[k + 1] == Next(states[k], steps[k]);
    assert steps[k].Whole? && Creates(steps[k].op) ==> !Made(steps, k, steps[k].op.id);
    hide Ids, AllHeld, Next;
    IdsNext(states[k], steps, k);
    AllHeldNext(states[k], steps, k);
  }

  lemma {:induction false} Reachable(states: seq<Sys>, steps: seq<SplitStep>, k: nat)
    requires IsRun(states, steps) && k < |states|
    ensures Ids(states[k], steps, k) && AllHeld(states[k])
  {
    hide Ids, AllHeld, Next;
    if k == 0 {
      NothingYet(steps);
    } else {
      Reachable(states, steps, k - 1);
      ReachableNext(states, steps, k - 1);
    }
  }

  // ---- saved references ----

  // An insertion finds every task its spec names.
  ghost predicate InsertsWhole(s: Sys, step: SplitStep) {
    step.Insert? && Works(s, step) ==> StillThere(s.lib, s.saves[step.save].spec)
  }

  lemma WholeKeepsSaved(s: Sys, step: SplitStep)
    requires step.Whole? && SavedResolve(s.lib)
    ensures SavedResolve(Next(s, step).lib)
  {
    if Works(s, step) { SavedNext(s.lib, step.op); }
  }

  lemma SameTasksAccept(a: Lib, b: Lib, w: string, spec: seq<TaskRef>)
    requires a.tasks == b.tasks
    ensures Accepted(a, w, spec) <==> Accepted(b, w, spec)
  {
    assert forall r :: Resolve(a, w, r) == Resolve(b, w, r);
    assert forall r :: Resolves(a, w, r) == Resolves(b, w, r);
  }

  lemma InsertKeepsSavedIff(s: Sys, step: SplitStep)
    requires step.Insert? && Works(s, step) && SavedResolve(s.lib) && AllHeld(s)
    ensures SavedResolve(Next(s, step).lib) <==> StillThere(s.lib, s.saves[step.save].spec)
  {
    var t, save := Next(s, step), s.saves[step.save];
    var versions := s.lib.pipelines[step.id].versions;
    HeldResolvesIff(s.lib, save);
    SameTasksAccept(s.lib, t.lib, save.workspace, save.spec);
    assert t.lib.pipelines[step.id].versions == versions + [save.spec];
    assert save.spec in t.lib.pipelines[step.id].versions;
    hide Accepted;
    if Accepted(t.lib, save.workspace, save.spec) {
      forall p, v | p in t.lib.pipelines && v in t.lib.pipelines[p].versions ensures Accepted(t.lib, t.lib.pipelines[p].workspace, v) {
        SameTasksAccept(s.lib, t.lib, t.lib.pipelines[p].workspace, v);
        assert v in s.lib.pipelines[p].versions || (p == step.id && v == save.spec);
      }
    }
  }

  lemma ElseKeepsSaved(s: Sys, step: SplitStep)
    requires !step.Whole? && !step.Insert? && SavedResolve(s.lib)
    ensures SavedResolve(Next(s, step).lib)
  {
    var t := Next(s, step);
    forall p, v | p in t.lib.pipelines && v in t.lib.pipelines[p].versions ensures Accepted(t.lib, t.lib.pipelines[p].workspace, v) {
      assert v in s.lib.pipelines[p].versions && t.lib.pipelines[p].workspace == s.lib.pipelines[p].workspace;
      SameTasksAccept(s.lib, t.lib, t.lib.pipelines[p].workspace, v);
    }
  }

  lemma SavedNextIff(s: Sys, step: SplitStep)
    requires SavedResolve(s.lib) && AllHeld(s)
    ensures SavedResolve(Next(s, step).lib) <==> InsertsWhole(s, step)
  {
    hide SavedResolve, AllHeld, StillThere;
    if step.Whole? {
      WholeKeepsSaved(s, step);
    } else if !step.Insert? {
      ElseKeepsSaved(s, step);
    } else if Works(s, step) {
      InsertKeepsSavedIff(s, step);
    }
  }

  lemma {:induction false} SavedUntil(states: seq<Sys>, steps: seq<SplitStep>, k: nat)
    requires IsRun(states, steps) && k < |states|
    requires forall i :: 0 <= i < k ==> InsertsWhole(states[i], steps[i])
    ensures SavedResolve(states[k].lib)
  {
    if k > 0 {
      hide SavedResolve, InsertsWhole, AllHeld, Ids;
      SavedUntil(states, steps, k - 1);
      Reachable(states, steps, k - 1);
      assert states[k] == Next(states[k - 1], steps[k - 1]);
      SavedNextIff(states[k - 1], steps[k - 1]);
    }
  }

  // Whatever runs in between, every saved reference resolves in every state exactly when each insertion still
  // finds every task its spec names.
  lemma SavedResolveIffTasksStillThere(states: seq<Sys>, steps: seq<SplitStep>)
    requires IsRun(states, steps)
    ensures (forall k :: 0 <= k < |states| ==> SavedResolve(states[k].lib)) <==> (forall i :: 0 <= i < |steps| ==> InsertsWhole(states[i], steps[i]))
  {
    hide SavedResolve, InsertsWhole, AllHeld, Ids;
    if forall k :: 0 <= k < |states| ==> SavedResolve(states[k].lib) {
      forall i | 0 <= i < |steps| ensures InsertsWhole(states[i], steps[i]) {
        Reachable(states, steps, i);
        assert SavedResolve(states[i].lib) && SavedResolve(states[i + 1].lib) && states[i + 1] == Next(states[i], steps[i]);
        SavedNextIff(states[i], steps[i]);
      }
    }
    if forall i :: 0 <= i < |steps| ==> InsertsWhole(states[i], steps[i]) {
      forall k | 0 <= k < |states| ensures SavedResolve(states[k].lib) {
        SavedUntil(states, steps, k);
      }
    }
  }

  // ---- the same in terms of the steps ----

  // Step d deletes a task.
  ghost predicate Deletes(states: seq<Sys>, steps: seq<SplitStep>, d: nat, id: string)
    requires |states| == |steps| + 1 && d < |steps|
  {
    steps[d].Whole? && steps[d].op.DeleteTask? && steps[d].op.id == id && Works(states[d], steps[d])
  }

  lemma TaskStays(states: seq<Sys>, steps: seq<SplitStep>, k: nat, id: string)
    requires IsRun(states, steps) && k < |steps| && Made(steps, k, id)
    ensures id in states[k + 1].lib.tasks <==> id in states[k].lib.tasks && !Deletes(states, steps, k, id)
  {
    var s, step := states[k], steps[k];
    assert states[k + 1] == Next(s, step);
    if step.Whole? && Works(s, step) {
      AppearsWhenMade(s.lib, step.op, id);
      if id in s.lib.tasks { StepKeeps(s.lib, step.op, id); }
    }
  }

  lemma MadeLater(steps: seq<SplitStep>, c: nat, k: nat, id: string)
    requires c <= k <= |steps| && Made(steps, c, id)
    ensures Made(steps, k, id)
  {
  }

  // A task that was there is there later exactly when no step in between deleted it.
  lemma {:induction false} StillThereIff(states: seq<Sys>, steps: seq<SplitStep>, c: nat, k: nat, id: string)
    requires IsRun(states, steps) && c <= k < |states| && id in states[c].lib.tasks
    ensures id in states[k].lib.tasks <==> forall d :: c <= d < k ==> !Deletes(states, steps, d, id)
    decreases k
  {
    if c < k {
      StillThereIff(states, steps, c, k - 1, id);
      Reachable(states, steps, c);
      assert Made(steps, c, id);
      hide Deletes, IsRun, Ids, AllHeld, Made;
      MadeLater(steps, c, k - 1, id);
      TaskStays(states, steps, k - 1, id);
    }
  }

  // Each reference a save has read was read by an earlier step, and it resolved then.
  lemma {:induction false} ReadBefore(states: seq<Sys>, steps: seq<SplitStep>, k: nat, save: string, n: nat) returns (c: nat)
    requires IsRun(states, steps) && k < |states| && save in states[k].saves && n < states[k].saves[save].read
    ensures c < k && steps[c] == Read(save) && Works(states[c], steps[c])
    ensures states[c].saves[save].read == n && states[c].saves[save].spec == states[k].saves[save].spec
  {
    assert k > 0;
    var s, step := states[k - 1], steps[k - 1];
    assert states[k] == Next(s, step);
    if step == Read(save) && Works(s, step) && s.saves[save].read == n {
      c := k - 1;
    } else {
      c := ReadBefore(states, steps, k - 1, save, n);
    }
  }

  // While a request goes on it holds the same spec; a name once used is not used again.
  lemma {:induction false} SpecStays(states: seq<Sys>, steps: seq<SplitStep>, c: nat, k: nat, save: string)
    requires IsRun(states, steps) && c <= k < |states| && save in states[c].saves && save in states[k].saves
    ensures states[k].saves[save].spec == states[c].saves[save].spec
    decreases k
  {
    if c < k {
      var s, step := states[k - 1], steps[k - 1];
      assert states[k] == Next(s, step);
      Reachable(states, steps, c);
      NotBegunAgain(states, steps, c, k - 1, save);
      SpecStays(states, steps, c, k - 1, save);
    }
  }

  lemma NotBegunAgain(states: seq<Sys>, steps: seq<SplitStep>, c: nat, k: nat, save: string)
    requires IsRun(states, steps) && c <= k < |steps| && Begun(steps, c, save)
    ensures !Begins(steps[k], save)
  {
    var i :| 0 <= i < c && Begins(steps[i], save);
  }

  // A task that a save names is deleted between the read of its reference (step c) and the save's insertion (step j).
  ghost predicate DeletedMeanwhile(states: seq<Sys>, steps: seq<SplitStep>, c: nat, d: nat, j: nat)
    requires |states| == |steps| + 1 && c < d < j < |steps|
  {
    && steps[c].Read? && steps[j].Insert? && steps[c].save == steps[j].save && Works(states[c], steps[c]) && Works(states[j], steps[j])
    && Deletes(states, steps, d, NextRef(states[c].saves[steps[c].save]).taskId)
  }

  lemma WholeMeansNoneDeleted(states: seq<Sys>, steps: seq<SplitStep>, c: nat, d: nat, j: nat)
    requires IsRun(states, steps) && c < d < j < |steps| && InsertsWhole(states[j], steps[j])
    ensures !DeletedMeanwhile(states, steps, c, d, j)
  {
    if steps[c].Read? && steps[j].Insert? && steps[c].save == steps[j].save && Works(states[c], steps[c]) && Works(states[j], steps[j]) {
      var id := NextRef(states[c].saves[steps[c].save]).taskId;
      SpecStays(states, steps, c, j, steps[j].save);
      assert NextRef(states[c].saves[steps[c].save]) in states[j].saves[steps[j].save].spec;
      StillThereIff(states, steps, c, j, id);
    }
  }

  lemma NotWholeMeansDeleted(states: seq<Sys>, steps: seq<SplitStep>, j: nat) returns (c: nat, d: nat)
    requires IsRun(states, steps) && j < |steps| && !InsertsWhole(states[j], steps[j])
    ensures c < d < j && DeletedMeanwhile(states, steps, c, d, j)
  {
    var save := states[j].saves[steps[j].save];
    var r :| r in save.spec && r.taskId !in states[j].lib.tasks;
    var n :| 0 <= n < |save.spec| && save.spec[n] == r;
    c := ReadBefore(states, steps, j, steps[j].save, n);
    StillThereIff(states, steps, c, j, r.taskId);
    d :| c <= d < j && Deletes(states, steps, d, r.taskId);
    assert d != c;
  }

  lemma InsertsWholeIff(states: seq<Sys>, steps: seq<SplitStep>, j: nat)
    requires IsRun(states, steps) && j < |steps|
    ensures InsertsWhole(states[j], steps[j]) <==> forall c, d :: 0 <= c < d < j ==> !DeletedMeanwhile(states, steps, c, d, j)
  {
    if InsertsWhole(states[j], steps[j]) {
      forall c, d | 0 <= c < d < j ensures !DeletedMeanwhile(states, steps, c, d, j) { WholeMeansNoneDeleted(states, steps, c, d, j); }
    } else {
      var c, d := NotWholeMeansDeleted(states, steps, j);
    }
  }

  // Saved references never dangle exactly when no task that a save names is deleted between the save's read of it
  // and the save's insertion.
  lemma SavedResolveIffNoneDeletedMeanwhile(states: seq<Sys>, steps: seq<SplitStep>)
    requires IsRun(states, steps)
    ensures (forall k :: 0 <= k < |states| ==> SavedResolve(states[k].lib))
        <==> (forall c, d, j :: 0 <= c < d < j < |steps| ==> !DeletedMeanwhile(states, steps, c, d, j))
  {
    SavedResolveIffTasksStillThere(states, steps);
    hide SavedResolve, InsertsWhole, DeletedMeanwhile;
    forall j | 0 <= j < |steps|
      ensures InsertsWhole(states[j], steps[j]) <==> forall c, d :: 0 <= c < d < j ==> !DeletedMeanwhile(states, steps, c, d, j)
    {
      InsertsWholeIff(states, steps, j);
    }
  }

  // ---- a run in which one dangles ----

  function ReadsThenInserts(config: TaskConfig): seq<SplitStep> {
    [Whole(CreateTask("t", "w", Some(config))), Whole(CreatePipeline("p", "w", None)), Begin("s", "w", [LatestOf("t")]), Read("s"),
     Whole(DeleteTask("t", "w")), Insert("s", "p")]
  }

  function DanglingStates(config: TaskConfig): seq<Sys> {
    var r, p, task := LatestOf("t"), Pipeline("w", [], None), Task("w", [config], Some(config));
    var begun, read := map["s" := Save("w", [r], 0, false)], map["s" := Save("w", [r], 1, false)];
    [Sys(Lib(map[], map[]), map[]), Sys(Lib(map["t" := task], map[]), map[]), Sys(Lib(map["t" := task], map["p" := p]), map[]),
     Sys(Lib(map["t" := task], map["p" := p]), begun), Sys(Lib(map["t" := task], map["p" := p]), read), Sys(Lib(map[], map["p" := p]), read),
     Sys(Lib(map[], map["p" := p.(versions := [[r]])]), map["s" := Save("w", [r], 1, true)])]
  }

  lemma MadeThenRead(config: TaskConfig)
    ensures var states, steps := DanglingStates(config), ReadsThenInserts(config);
            && states[1] == Next(states[0], steps[0]) && states[2] == Next(states[1], steps[1])
            && states[3] == Next(states[2], steps[2]) && states[4] == Next(states[3], steps[3])
  {
    var states, r := DanglingStates(config), LatestOf("t");
    OneNodeIsSound(r);
    assert Grown([], Some(config)) == [config];
    assert Resolves(states[3].lib, "w", r);
    hide Sound;
  }

  lemma DeletedThenInserted(config: TaskConfig)
    ensures var states, steps := DanglingStates(config), ReadsThenInserts(config);
            states[5] == Next(states[4], steps[4]) && states[6] == Next(states[5], steps[5])
  {
    var states, r := DanglingStates(config), LatestOf("t");
    assert !Referenced(states[4].lib, "t");
    var none: seq<seq<TaskRef>> := [];
    assert none + [[r]] == [[r]];
  }

  lemma TaskGone(lib: Lib, r: TaskRef)
    requires r.taskId !in lib.tasks && "p" in lib.pipelines && [r] in lib.pipelines["p"].versions
    ensures !Resolves(lib, lib.pipelines["p"].workspace, r) && !SavedResolve(lib)
  {
    assert r in [r];
    assert !AllResolve(lib, lib.pipelines["p"].workspace, [r]);
  }

  // A save reads its one reference, the task is deleted, which nothing saved keeps yet, and the version is stored.
  lemma SavedReferenceDangles(config: TaskConfig) returns (states: seq<Sys>)
    ensures IsRun(states, ReadsThenInserts(config))
    ensures var lib, r := states[6].lib, LatestOf("t");
            lib == Lib(map[], map["p" := Pipeline("w", [[r]], None)]) && !Resolves(lib, "w", r) && !SavedResolve(lib)
  {
    states := DanglingStates(config);
    MadeThenRead(config);
    DeletedThenInserted(config);
    hide Next, SavedResolve, Resolves;
    TaskGone(states[6].lib, LatestOf("t"));
  }
}
