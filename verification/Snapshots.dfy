// Where a saved task's source comes from (src/booth_pipeline/service.py): code and shared modules named by reference
// are fetched and copied in when a task is saved, unless this task already holds that reference's snapshot.
// Whatever a client sends in the snapshot fields is ignored.
module Snapshots {
  import opened Basics

  const LATEST := "latest"

  datatype Code =
    | Inline(source: string, sha256: string)
    | Catalog(entryId: string, version: string, name: Option<string>, language: Option<string>, hash: Option<string>, text: Option<string>)
    | Storage(backendId: string, path: string, name: Option<string>, language: Option<string>, hash: Option<string>, text: Option<string>)

  datatype Module = Module(name: string, entryId: string, version: string, entryName: Option<string>, language: Option<string>,
                           hash: Option<string>, text: Option<string>)

  datatype TaskConfig = TaskConfig(code: Code, modules: seq<Module>, rest: string)

  predicate CodeResolved(c: Code) {
    match c
    case Inline(_, _) => true
    case Catalog(_, v, _, _, h, t) => t.Some? && h.Some? && v != LATEST
    case Storage(_, _, _, _, h, t) => t.Some? && h.Some?
  }

  predicate ModuleResolved(m: Module) { m.text.Some? && m.hash.Some? && m.version != LATEST }

  // What makes two references the same for reuse.
  datatype RefKey = CatalogKey(entryId: string, version: string) | StorageKey(backendId: string, path: string)

  function KeyOf(c: Code): RefKey
    requires !c.Inline?
  {
    match c
    case Catalog(e, v, _, _, _, _) => CatalogKey(e, v)
    case Storage(b, p, _, _, _, _) => StorageKey(b, p)
  }

  // One request to the catalog or to storage, with its answer. The version is what the catalog says it served.
  datatype Answer = Found(version: string, name: string, language: string, source: string) | Failed
  datatype Fetch = Fetch(key: RefKey, answer: Answer)

  // The k-th fetch ever made gets answers(k). `sha` is the hash function, `language` what a path's extension says;
  // `valid` and `runs` stand for the config checks and the base runner's language check.
  datatype Env = Env(answers: nat -> Answer, sha: string -> string, language: string -> Option<string>,
                     valid: TaskConfig -> bool, runs: (TaskConfig, Code) -> bool)

  // path.rsplit("/", 1)[-1]
  function Basename(path: string): string {
    if path == "" || path[|path| - 1] == '/' then "" else Basename(path[..|path| - 1]) + [path[|path| - 1]]
  }

  // What is after the last slash, and the whole path without one.
  lemma {:induction false} BasenameIs(path: string) returns (dir: string)
    ensures path == dir + Basename(path) && '/' !in Basename(path) && (dir != "" ==> dir[|dir| - 1] == '/')
  {
    if path == "" || path[|path| - 1] == '/' {
      dir := path;
    } else {
      var front, last := path[..|path| - 1], path[|path| - 1];
      dir := BasenameIs(front);
      assert Basename(path) == Basename(front) + [last];
      hide Basename;
      assert path == front + [last] == dir + Basename(front) + [last];
    }
  }

  datatype Refusal = Invalid | NotFetched | LanguageNotSupported

  // A result, and the fetches made by then.
  datatype Outcome<T> = Outcome(result: Result<T, Refusal>, log: seq<Fetch>)

  // The client refuses an answer without a concrete version.
  predicate Usable(a: Answer) { a.Found? && a.version != "" && a.version != LATEST }

  function FetchCatalog(env: Env, log: seq<Fetch>, entryId: string, version: string): Outcome<Code> {
    var a := env.answers(|log|);
    Outcome(
      if Usable(a) then Ok(Catalog(entryId, a.version, Some(a.name), Some(a.language), Some(env.sha(a.source)), Some(a.source))) else Err(NotFetched),
      log + [Fetch(CatalogKey(entryId, version), a)])
  }

  function FetchStorage(env: Env, log: seq<Fetch>, backendId: string, path: string): Outcome<Code> {
    var a := env.answers(|log|);
    Outcome(
      if a.Found? then Ok(Storage(backendId, path, Some(Basename(path)), env.language(path), Some(env.sha(a.source)), Some(a.source))) else Err(NotFetched),
      log + [Fetch(StorageKey(backendId, path), a)])
  }

  function Fetched(env: Env, log: seq<Fetch>, c: Code): Outcome<Code>
    requires !c.Inline?
  {
    match c
    case Catalog(e, v, _, _, _, _) => FetchCatalog(env, log, e, v)
    case Storage(b, p, _, _, _, _) => FetchStorage(env, log, b, p)
  }

  predicate Reusable(previous: Option<TaskConfig>, c: Code)
    requires !c.Inline?
  {
    previous.Some? && !previous.value.code.Inline? && CodeResolved(previous.value.code) && KeyOf(previous.value.code) == KeyOf(c)
  }

  function ResolvedCode(env: Env, log: seq<Fetch>, config: TaskConfig, previous: Option<TaskConfig>): Outcome<Code> {
    match config.code
    case Inline(source, _) => Outcome(Ok(Inline(source, env.sha(source))), log)
    case _ =>
      var got := if Reusable(previous, config.code) then Outcome(Ok(previous.value.code), log) else Fetched(env, log, config.code);
      if got.result.Ok? && !env.runs(config, got.result.value) then got.(result := Err(LanguageNotSupported)) else got
  }

  // The snapshot the previous config holds of a module's reference; of equal ones the last.
  function Known(mods: seq<Module>, entryId: string, version: string): Option<Module> {
    if mods == [] then None
    else
      var m := mods[|mods| - 1];
      if ModuleResolved(m) && m.entryId == entryId && m.version == version then Some(m) else Known(mods[..|mods| - 1], entryId, version)
  }

  function PreviousModules(previous: Option<TaskConfig>): seq<Module> { if previous.Some? then previous.value.modules else [] }

  function AsModule(name: string, got: Code): Module
    requires got.Catalog?
  {
    Module(name, got.entryId, got.version, got.name, got.language, got.hash, got.text)
  }

  // One more module after those resolved before.
  function NextResolved(env: Env, before: Outcome<seq<Module>>, m: Module, previous: Option<TaskConfig>): Outcome<seq<Module>> {
    if before.result.Err? then before
    else
      var known := Known(PreviousModules(previous), m.entryId, m.version);
      if known.Some? then before.(result := Ok(before.result.value + [known.value.(name := m.name)]))
      else
        var got := FetchCatalog(env, before.log, m.entryId, m.version);
        if got.result.Err? then Outcome(Err(got.result.error), got.log)
        else Outcome(Ok(before.result.value + [AsModule(m.name, got.result.value)]), got.log)
  }

  // One module after another, up to the first that cannot be fetched.
  function ResolvedModules(env: Env, log: seq<Fetch>, mods: seq<Module>, previous: Option<TaskConfig>): Outcome<seq<Module>> {
    if mods == [] then Outcome(Ok([]), log)
    else NextResolved(env, ResolvedModules(env, log, mods[..|mods| - 1], previous), mods[|mods| - 1], previous)
  }

  function Prepared(env: Env, log: seq<Fetch>, config: TaskConfig, previous: Option<TaskConfig>): Outcome<TaskConfig> {
    if !env.valid(config) then Outcome(Err(Invalid), log)
    else
      var code := ResolvedCode(env, log, config, previous);
      if code.result.Err? then Outcome(Err(code.result.error), code.log)
      else
        var mods := ResolvedModules(env, code.log, config.modules, previous);
        if mods.result.Err? then Outcome(Err(mods.result.error), mods.log)
        else
          var resolved := config.(code := code.result.value, modules := mods.result.value);
          Outcome(if env.valid(resolved) then Ok(resolved) else Err(Invalid), mods.log)
  }

  // ---- one task, over any saves ----

  // Everything stored for one task, and every fetch made for it.
  datatype History = History(versions: seq<TaskConfig>, draft: Option<TaskConfig>, log: seq<Fetch>)

  datatype Save = Save(config: TaskConfig, asVersion: bool)

  // The draft if there is one, else the latest version.
  function Latest(h: History): Option<TaskConfig> {
    if h.draft.Some? then h.draft else if h.versions == [] then None else Some(h.versions[|h.versions| - 1])
  }

  function Saved(env: Env, h: History, save: Save): History {
    var got := Prepared(env, h.log, save.config, Latest(h));
    if got.result.Err? then h.(log := got.log)
    else History(if save.asVersion then h.versions + [got.result.value] else h.versions, Some(got.result.value), got.log)
  }

  function SavedAll(env: Env, h: History, saves: seq<Save>): History {
    if saves == [] then h else Saved(env, SavedAll(env, h, saves[..|saves| - 1]), saves[|saves| - 1])
  }

  // ---- provenance ----

  // The snapshot is what some fetch for this very reference returned: for the catalog, for this entry, with this
  // concrete version.
  ghost predicate CatalogFetched(env: Env, log: seq<Fetch>, entryId: string, version: string, name: Option<string>,
                                 language: Option<string>, hash: Option<string>, text: Option<string>)
  {
    exists f :: f in log && f.key.CatalogKey? && f.key.entryId == entryId && Usable(f.answer) && f.answer.version == version
             && name == Some(f.answer.name) && language == Some(f.answer.language)
             && text == Some(f.answer.source) && hash == Some(env.sha(f.answer.source))
  }

  ghost predicate CodeFetched(env: Env, log: seq<Fetch>, c: Code) {
    match c
    case Inline(source, sha256) => sha256 == env.sha(source)
    case Catalog(e, v, n, l, h, t) => CatalogFetched(env, log, e, v, n, l, h, t)
    case Storage(b, p, n, l, h, t) =>
      exists f :: f in log && f.key == StorageKey(b, p) && f.answer.Found? && n == Some(Basename(p)) && l == env.language(p)
               && t == Some(f.answer.source) && h == Some(env.sha(f.answer.source))
  }

  ghost predicate ModuleFetched(env: Env, log: seq<Fetch>, m: Module) {
    CatalogFetched(env, log, m.entryId, m.version, m.entryName, m.language, m.hash, m.text)
  }

  ghost predicate ConfigFetched(env: Env, log: seq<Fetch>, c: TaskConfig) {
    CodeFetched(env, log, c.code) && forall m :: m in c.modules ==> ModuleFetched(env, log, m)
  }

  ghost predicate HistoryFetched(env: Env, h: History) {
    && (forall c :: c in h.versions ==> ConfigFetched(env, h.log, c))
    && (h.draft.Some? ==> ConfigFetched(env, h.log, h.draft.value))
  }

  lemma LaterLogs(env: Env, log: seq<Fetch>, more: seq<Fetch>, c: TaskConfig)
    requires ConfigFetched(env, log, c) && log <= more
    ensures ConfigFetched(env, more, c)
  {
    assert forall f :: f in log ==> f in more;
    forall m | m in c.modules ensures ModuleFetched(env, more, m) {
      assert ModuleFetched(env, log, m);
    }
  }

  lemma FetchedIsFetched(env: Env, log: seq<Fetch>, c: Code)
    requires !c.Inline?
    ensures var got := Fetched(env, log, c);
            && log <= got.log && |got.log| == |log| + 1
            && (got.result.Ok? ==> CodeFetched(env, got.log, got.result.value) && CodeResolved(got.result.value) && !got.result.value.Inline?)
  {
    var got := Fetched(env, log, c);
    assert got.log[|log|] in got.log;
  }

  lemma CodeIsFetched(env: Env, log: seq<Fetch>, config: TaskConfig, previous: Option<TaskConfig>)
    requires previous.Some? ==> ConfigFetched(env, log, previous.value)
    ensures var got := ResolvedCode(env, log, config, previous);
            log <= got.log && (got.result.Ok? ==> CodeFetched(env, got.log, got.result.value))
  {
    if !config.code.Inline? { FetchedIsFetched(env, log, config.code); }
  }

  lemma {:induction false} KnownIsHeld(mods: seq<Module>, entryId: string, version: string)
    ensures var k := Known(mods, entryId, version);
            k.Some? ==> k.value in mods && k.value.entryId == entryId && k.value.version == version
  {
    if mods != [] { KnownIsHeld(mods[..|mods| - 1], entryId, version); }
  }

  ghost predicate AllFetched(env: Env, log: seq<Fetch>, mods: seq<Module>) { forall m :: m in mods ==> ModuleFetched(env, log, m) }

  lemma OneMoreFetched(env: Env, log: seq<Fetch>, more: seq<Fetch>, mods: seq<Module>, m: Module)
    requires AllFetched(env, log, mods) && log <= more && ModuleFetched(env, more, m)
    ensures AllFetched(env, more, mods + [m])
  {
    assert forall f :: f in log ==> f in more;
    forall x | x in mods ensures ModuleFetched(env, more, x) { assert ModuleFetched(env, log, x); }
    hide ModuleFetched;
  }

  lemma {:induction false} ModulesAreFetched(env: Env, log: seq<Fetch>, mods: seq<Module>, previous: Option<TaskConfig>)
    requires AllFetched(env, log, PreviousModules(previous))
    ensures var got := ResolvedModules(env, log, mods, previous);
            log <= got.log && (got.result.Ok? ==> AllFetched(env, got.log, got.result.value))
  {
    if mods != [] {
      var rest, m := mods[..|mods| - 1], mods[|mods| - 1];
      ModulesAreFetched(env, log, rest, previous);
      var before := ResolvedModules(env, log, rest, previous);
      if before.result.Ok? {
        NextModule(env, log, before.log, before.result.value, m, previous);
      }
    }
  }

  lemma NextModule(env: Env, log: seq<Fetch>, now: seq<Fetch>, done: seq<Module>, m: Module, previous: Option<TaskConfig>)
    requires AllFetched(env, log, PreviousModules(previous)) && log <= now && AllFetched(env, now, done)
    ensures var known := Known(PreviousModules(previous), m.entryId, m.version);
            known.Some? ==> AllFetched(env, now, done + [known.value.(name := m.name)])
    ensures var got := FetchCatalog(env, now, m.entryId, m.version);
            now <= got.log && (got.result.Ok? ==> AllFetched(env, got.log, done + [AsModule(m.name, got.result.value)]))
  {
    var known := Known(PreviousModules(previous), m.entryId, m.version);
    KnownIsHeld(PreviousModules(previous), m.entryId, m.version);
    if known.Some? {
      assert ModuleFetched(env, log, known.value);
      assert forall f :: f in log ==> f in now;
      OneMoreFetched(env, now, now, done, known.value.(name := m.name));
    }
    var got := FetchCatalog(env, now, m.entryId, m.version);
    assert got.log[|now|] in got.log;
    if got.result.Ok? { OneMoreFetched(env, now, got.log, done, AsModule(m.name, got.result.value)); }
  }

  lemma PreparedIsFetched(env: Env, log: seq<Fetch>, config: TaskConfig, previous: Option<TaskConfig>)
    requires previous.Some? ==> ConfigFetched(env, log, previous.value)
    ensures var got := Prepared(env, log, config, previous);
            log <= got.log && (got.result.Ok? ==> ConfigFetched(env, got.log, got.result.value))
  {
    CodeIsFetched(env, log, config, previous);
    var code := ResolvedCode(env, log, config, previous);
    if previous.Some? { LaterLogs(env, log, code.log, previous.value); }
    ModulesAreFetched(env, code.log, config.modules, previous);
    var mods := ResolvedModules(env, code.log, config.modules, previous);
    if code.result.Ok? {
      LaterLogs(env, code.log, mods.log, config.(code := code.result.value, modules := []));
    }
    hide ResolvedCode, ResolvedModules, CodeFetched, ModuleFetched;
  }

  lemma SavedIsFetched(env: Env, h: History, save: Save)
    requires HistoryFetched(env, h)
    ensures HistoryFetched(env, Saved(env, h, save)) && h.log <= Saved(env, h, save).log
  {
    if h.draft.None? && h.versions != [] { assert h.versions[|h.versions| - 1] in h.versions; }
    PreparedIsFetched(env, h.log, save.config, Latest(h));
    var q := Saved(env, h, save);
    hide Prepared, ConfigFetched;
    forall c | c in q.versions ensures ConfigFetched(env, q.log, c) {
      if c in h.versions { LaterLogs(env, h.log, q.log, c); }
    }
    if h.draft.Some? { LaterLogs(env, h.log, q.log, h.draft.value); }
  }

  // Whatever clients send and however fetches answer, every stored catalog source or shared module is what a fetch
  // for its entry returned as its concrete version, every stored storage source is what a fetch of its path
  // returned for this task, and every hash is its source's.
  lemma {:induction false} SnapshotsAreFetched(env: Env, saves: seq<Save>, c: TaskConfig)
    requires var h := SavedAll(env, History([], None, []), saves); c in h.versions || h.draft == Some(c)
    ensures ConfigFetched(env, SavedAll(env, History([], None, []), saves).log, c)
  {
    AllSavesAreFetched(env, saves);
  }

  lemma {:induction false} AllSavesAreFetched(env: Env, saves: seq<Save>)
    ensures HistoryFetched(env, SavedAll(env, History([], None, []), saves))
  {
    if saves != [] {
      AllSavesAreFetched(env, saves[..|saves| - 1]);
      SavedIsFetched(env, SavedAll(env, History([], None, []), saves[..|saves| - 1]), saves[|saves| - 1]);
    }
  }

  // A stored version is always concrete, so "latest" is fetched anew on every save.
  lemma LatestIsFetchedAnew(env: Env, log: seq<Fetch>, config: TaskConfig, previous: Option<TaskConfig>)
    requires config.code.Catalog? && config.code.version == LATEST
    ensures ResolvedCode(env, log, config, previous).log == log + [Fetch(CatalogKey(config.code.entryId, LATEST), env.answers(|log|))]
  {
  }

  // ---- what is stored is what was sent ----

  // One of the fetches made since then was for this entry and version, and was answered with version v.
  ghost predicate Answered(log: seq<Fetch>, since: nat, entryId: string, version: string, v: string)
    requires since <= |log|
  {
    exists i :: since <= i < |log| && log[i].key == CatalogKey(entryId, version) && log[i].answer.Found? && log[i].answer.version == v
  }

  // The reference sent, resolved: the same source, the same object, or the same entry in the version sent or, of a
  // reference fetched by this save, the version the catalog answered it with.
  ghost predicate CodeAsSent(log: seq<Fetch>, since: nat, sent: Code, stored: Code)
    requires since <= |log|
  {
    match sent
    case Inline(source, _) => stored.Inline? && stored.source == source
    case Storage(b, p, _, _, _, _) => stored.Storage? && stored.backendId == b && stored.path == p
    case Catalog(e, v, _, _, _, _) => stored.Catalog? && stored.entryId == e && (stored.version == v || Answered(log, since, e, v, stored.version))
  }

  ghost predicate ModuleAsSent(log: seq<Fetch>, since: nat, sent: Module, stored: Module)
    requires since <= |log|
  {
    stored.name == sent.name && stored.entryId == sent.entryId &&
    (stored.version == sent.version || Answered(log, since, sent.entryId, sent.version, stored.version))
  }

  ghost predicate ModulesAsSent(log: seq<Fetch>, since: nat, sent: seq<Module>, stored: seq<Module>)
    requires since <= |log|
  {
    |stored| == |sent| && forall i :: 0 <= i < |sent| ==> ModuleAsSent(log, since, sent[i], stored[i])
  }

  lemma AnsweredLater(log: seq<Fetch>, more: seq<Fetch>, since: nat, entryId: string, version: string, v: string)
    requires since <= |log| && log <= more && Answered(log, since, entryId, version, v)
    ensures Answered(more, since, entryId, version, v)
  {
    var i :| since <= i < |log| && log[i].key == CatalogKey(entryId, version) && log[i].answer.Found? && log[i].answer.version == v;
    assert more[i] == log[i];
  }

  lemma CodeIsAsSent(env: Env, log: seq<Fetch>, config: TaskConfig, previous: Option<TaskConfig>)
    ensures var got := ResolvedCode(env, log, config, previous);
            log <= got.log && (got.result.Ok? ==> CodeAsSent(got.log, |log|, config.code, got.result.value))
  {
    var got := ResolvedCode(env, log, config, previous);
    if config.code.Catalog? && got.result.Ok? && got.log != log {
      var f := got.log[|log|];
      assert f.key == CatalogKey(config.code.entryId, config.code.version) && f.answer.Found? && f.answer.version == got.result.value.version;
    }
  }

  lemma ModuleStepIsAsSent(env: Env, log: seq<Fetch>, since: nat, m: Module, previous: Option<TaskConfig>)
    requires since <= |log|
    ensures var known := Known(PreviousModules(previous), m.entryId, m.version);
            known.Some? ==> ModuleAsSent(log, since, m, known.value.(name := m.name))
    ensures var got := FetchCatalog(env, log, m.entryId, m.version);
            log <= got.log && (got.result.Ok? ==> ModuleAsSent(got.log, since, m, AsModule(m.name, got.result.value)))
  {
    KnownIsHeld(PreviousModules(previous), m.entryId, m.version);
    var got := FetchCatalog(env, log, m.entryId, m.version);
    if got.result.Ok? {
      var f := got.log[|log|];
      assert f.key == CatalogKey(m.entryId, m.version) && f.answer.Found? && f.answer.version == got.result.value.version;
    }
  }

  lemma ModulesAsSentLater(log: seq<Fetch>, more: seq<Fetch>, since: nat, sent: seq<Module>, stored: seq<Module>)
    requires since <= |log| && log <= more && ModulesAsSent(log, since, sent, stored)
    ensures ModulesAsSent(more, since, sent, stored)
  {
    forall i | 0 <= i < |sent| ensures ModuleAsSent(more, since, sent[i], stored[i]) {
      assert ModuleAsSent(log, since, sent[i], stored[i]);
      if stored[i].version != sent[i].version { AnsweredLater(log, more, since, sent[i].entryId, sent[i].version, stored[i].version); }
    }
  }

  lemma {:induction false} ModulesAreAsSent(env: Env, log: seq<Fetch>, since: nat, mods: seq<Module>, previous: Option<TaskConfig>)
    requires since <= |log|
    ensures var got := ResolvedModules(env, log, mods, previous);
            log <= got.log && (got.result.Ok? ==> ModulesAsSent(got.log, since, mods, got.result.value))
  {
    if mods != [] {
      var rest, m := mods[..|mods| - 1], mods[|mods| - 1];
      ModulesAreAsSent(env, log, since, rest, previous);
      var before, got := ResolvedModules(env, log, rest, previous), ResolvedModules(env, log, mods, previous);
      if before.result.Ok? {
        ModuleStepIsAsSent(env, before.log, since, m, previous);
        ModulesAsSentLater(before.log, got.log, since, rest, before.result.value);
        if got.result.Ok? {
          var stored := got.result.value;
          assert stored[..|rest|] == before.result.value && |stored| == |mods|;
          assert ModuleAsSent(got.log, since, m, stored[|rest|]);
          hide ModuleAsSent;
          forall i | 0 <= i < |mods| ensures ModuleAsSent(got.log, since, mods[i], stored[i]) {
            if i < |rest| { assert mods[i] == rest[i] && stored[i] == before.result.value[i]; }
          }
        }
      }
    }
  }

  // An accepted save stores the code and the modules that were sent, in order and under their names, and everything
  // else of the config as it is.
  lemma SaveStoresWhatWasSent(env: Env, log: seq<Fetch>, config: TaskConfig, previous: Option<TaskConfig>)
    ensures var got := Prepared(env, log, config, previous);
            && log <= got.log
            && (got.result.Ok? ==>
                  && got.result.value.rest == config.rest && CodeAsSent(got.log, |log|, config.code, got.result.value.code)
                  && ModulesAsSent(got.log, |log|, config.modules, got.result.value.modules))
  {
    CodeIsAsSent(env, log, config, previous);
    var code := ResolvedCode(env, log, config, previous);
    ModulesAreAsSent(env, code.log, |log|, config.modules, previous);
    var mods := ResolvedModules(env, code.log, config.modules, previous);
    if code.result.Ok? && config.code.Catalog? && code.result.value.Catalog? && code.result.value.version != config.code.version {
      AnsweredLater(code.log, mods.log, |log|, config.code.entryId, config.code.version, code.result.value.version);
    }
    hide ResolvedCode, ResolvedModules, Answered, ModulesAsSent;
  }

  // ---- what is accepted, and why not ----

  predicate Answers(f: Fetch) { if f.key.CatalogKey? then Usable(f.answer) else f.answer.Found? }

  predicate AllAnswer(log: seq<Fetch>, since: nat)
    requires since <= |log|
  {
    forall i :: since <= i < |log| ==> Answers(log[i])
  }

  lemma CodeRefusals(env: Env, log: seq<Fetch>, config: TaskConfig, previous: Option<TaskConfig>)
    ensures var got := ResolvedCode(env, log, config, previous);
            && log <= got.log && (got.result != Err(NotFetched) <==> AllAnswer(got.log, |log|)) && got.result != Err(Invalid)
            && (got.result.Ok? && !config.code.Inline? ==> env.runs(config, got.result.value))
            && (got.result == Err(LanguageNotSupported) ==>
                  !config.code.Inline? && exists c :: CodeAsSent(got.log, |log|, config.code, c) && !env.runs(config, c))
  {
    var got := ResolvedCode(env, log, config, previous);
    if !config.code.Inline? {
      var had := if Reusable(previous, config.code) then Outcome(Ok(previous.value.code), log) else Fetched(env, log, config.code);
      CodeIsAsSent(env.(runs := (x, y) => true), log, config, previous);
      assert had.result.Ok? ==> CodeAsSent(had.log, |log|, config.code, had.result.value);
      if had.log != log { assert |had.log| == |log| + 1 && (Answers(had.log[|log|]) <==> had.result.Ok?); }
      hide KeyOf, CodeAsSent, Fetched, Answers;
    }
  }

  lemma {:induction false} ModuleRefusals(env: Env, log: seq<Fetch>, mods: seq<Module>, previous: Option<TaskConfig>)
    ensures var got := ResolvedModules(env, log, mods, previous);
            log <= got.log && (got.result.Ok? <==> AllAnswer(got.log, |log|)) && (got.result.Err? ==> got.result.error == NotFetched)
  {
    if mods != [] {
      var rest, m := mods[..|mods| - 1], mods[|mods| - 1];
      ModuleRefusals(env, log, rest, previous);
      var before, got := ResolvedModules(env, log, rest, previous), ResolvedModules(env, log, mods, previous);
      assert got == NextResolved(env, before, m, previous);
      hide Known, ResolvedModules;
      if got.log != before.log {
        var i := |before.log|;
        assert got.log[..i] == before.log && |got.log| == i + 1;
        assert Answers(got.log[i]) <==> got.result.Ok?;
        hide Answers;
        if got.result.Ok? {
          forall k | |log| <= k < |got.log| ensures Answers(got.log[k]) { if k < i { assert got.log[k] == before.log[k]; } }
        }
      }
    }
  }

  // A save is accepted only if every fetch it makes is answered, the config is valid as sent and as resolved, and the
  // base runner runs the code it refers to. A refusal names what was wrong: a fetch without an answer exactly then,
  // code as sent that does not run, or a config that is not valid as sent or as resolved.
  lemma AcceptedOnlyIf(env: Env, log: seq<Fetch>, config: TaskConfig, previous: Option<TaskConfig>)
    ensures var got := Prepared(env, log, config, previous);
            && log <= got.log && (got.result == Err(NotFetched) <==> !AllAnswer(got.log, |log|))
            && (got.result.Ok? ==> env.valid(config) && env.valid(got.result.value) &&
                                   (config.code.Inline? || env.runs(config, got.result.value.code)))
            && (got.result == Err(LanguageNotSupported) ==>
                  !config.code.Inline? && exists c :: CodeAsSent(got.log, |log|, config.code, c) && !env.runs(config, c))
            && (got.result == Err(Invalid) ==>
                  !env.valid(config) ||
                  exists c: TaskConfig :: !env.valid(c) && c.rest == config.rest && CodeAsSent(got.log, |log|, config.code, c.code) &&
                                          ModulesAsSent(got.log, |log|, config.modules, c.modules))
  {
    CodeRefusals(env, log, config, previous);
    var code := ResolvedCode(env, log, config, previous);
    ModuleRefusals(env, code.log, config.modules, previous);
    var mods := ResolvedModules(env, code.log, config.modules, previous);
    assert code.log == mods.log[..|code.log|];
    if env.valid(config) && code.result.Ok? && mods.result.Ok? {
      SaveStoresWhatWasSent(env.(valid := x => true), log, config, previous);
      assert ResolvedCode(env.(valid := x => true), log, config, previous) == code;
      SameModules(env, env.(valid := x => true), code.log, config.modules, previous);
    }
    hide ResolvedCode, ResolvedModules, CodeAsSent, ModulesAsSent, Answers;
  }

  lemma {:induction false} SameModules(env: Env, other: Env, log: seq<Fetch>, mods: seq<Module>, previous: Option<TaskConfig>)
    requires env.answers == other.answers && env.sha == other.sha
    ensures ResolvedModules(env, log, mods, previous) == ResolvedModules(other, log, mods, previous)
  {
    if mods != [] { SameModules(env, other, log, mods[..|mods| - 1], previous); }
  }

  // A catalog that answers a concrete version with that version.
  ghost predicate HonoursPins(log: seq<Fetch>) {
    forall f :: f in log && f.key.CatalogKey? && f.key.version != LATEST && f.answer.Found? ==> f.answer.version == f.key.version
  }

  // Then a reference to a concrete version is stored in that version.
  lemma PinIsStored(env: Env, log: seq<Fetch>, config: TaskConfig, previous: Option<TaskConfig>)
    requires var got := Prepared(env, log, config, previous); got.result.Ok? && HonoursPins(got.log)
    ensures var got := Prepared(env, log, config, previous).result.value;
            && (config.code.Catalog? && config.code.version != LATEST ==> got.code.Catalog? && got.code.version == config.code.version)
            && |got.modules| == |config.modules|
            && forall i :: 0 <= i < |config.modules| && config.modules[i].version != LATEST ==> got.modules[i].version == config.modules[i].version
  {
    SaveStoresWhatWasSent(env, log, config, previous);
    var full := Prepared(env, log, config, previous);
    hide Prepared;
    forall e, v, w | v != LATEST && Answered(full.log, |log|, e, v, w) ensures v == w {
      var i :| |log| <= i < |full.log| && full.log[i].key == CatalogKey(e, v) && full.log[i].answer.Found? && full.log[i].answer.version == w;
      assert full.log[i] in full.log;
    }
    forall i | 0 <= i < |config.modules| && config.modules[i].version != LATEST
      ensures full.result.value.modules[i].version == config.modules[i].version
    {
      assert ModuleAsSent(full.log, |log|, config.modules[i], full.result.value.modules[i]);
    }
  }

  // ---- exactly what is fetched ----

  // The task already holds a snapshot of this very reference.
  predicate HoldsCode(previous: TaskConfig, sent: Code) {
    match previous.code
    case Inline(_, _) => false
    case Catalog(e, v, _, _, h, t) => h.Some? && t.Some? && v != LATEST && sent.Catalog? && sent.entryId == e && sent.version == v
    case Storage(b, p, _, _, h, t) => h.Some? && t.Some? && sent.Storage? && sent.backendId == b && sent.path == p
  }

  // Code sent by reference is fetched, for that reference, exactly when the task holds no snapshot of it; and what it
  // holds is stored again as it is.
  lemma CodeIsFetchedIffNotHeld(env: Env, log: seq<Fetch>, config: TaskConfig, previous: Option<TaskConfig>)
    ensures var got, sent := ResolvedCode(env, log, config, previous), config.code;
            && (sent.Inline? ==> got.log == log && got.result.Ok?)
            && (!sent.Inline? && previous.Some? && HoldsCode(previous.value, sent) ==>
                  got.log == log && (got.result.Ok? ==> got.result.value == previous.value.code))
            && (sent.Catalog? && !(previous.Some? && HoldsCode(previous.value, sent)) ==>
                  |got.log| == |log| + 1 && log <= got.log && got.log[|log|].key == CatalogKey(sent.entryId, sent.version))
            && (sent.Storage? && !(previous.Some? && HoldsCode(previous.value, sent)) ==>
                  |got.log| == |log| + 1 && log <= got.log && got.log[|log|].key == StorageKey(sent.backendId, sent.path))
  {
  }

  predicate HoldsModule(held: seq<Module>, m: Module) {
    exists p :: p in held && p.text.Some? && p.hash.Some? && p.version != LATEST && p.entryId == m.entryId && p.version == m.version
  }

  // The references of the modules that are not held, in order.
  function ToFetch(held: seq<Module>, mods: seq<Module>): seq<RefKey> {
    if mods == [] then []
    else
      var m := mods[|mods| - 1];
      ToFetch(held, mods[..|mods| - 1]) + if HoldsModule(held, m) then [] else [CatalogKey(m.entryId, m.version)]
  }

  function KeysFrom(log: seq<Fetch>, since: nat): seq<RefKey>
    requires since <= |log|
  {
    seq(|log| - since, i requires 0 <= i < |log| - since => log[since + i].key)
  }

  lemma KnownIffHeld(held: seq<Module>, m: Module)
    ensures Known(held, m.entryId, m.version).Some? <==> HoldsModule(held, m)
  {
    KnownIsResolved(held, m.entryId, m.version);
    if HoldsModule(held, m) {
      var p :| p in held && p.text.Some? && p.hash.Some? && p.version != LATEST && p.entryId == m.entryId && p.version == m.version;
      HeldIsKnown(held, p);
    }
  }

  lemma {:induction false} KnownIsResolved(mods: seq<Module>, entryId: string, version: string)
    ensures var k := Known(mods, entryId, version);
            k.Some? ==> k.value in mods && ModuleResolved(k.value) && k.value.entryId == entryId && k.value.version == version
  {
    if mods != [] { KnownIsResolved(mods[..|mods| - 1], entryId, version); }
  }

  predicate IsSnapshotOf(m: Module, entryId: string, version: string) {
    m.text.Some? && m.hash.Some? && m.version != LATEST && m.entryId == entryId && m.version == version
  }

  // Of several snapshots of one reference the last is taken, as it is.
  lemma {:induction false} KnownIsLast(mods: seq<Module>, entryId: string, version: string, i: nat)
    requires i < |mods| && IsSnapshotOf(mods[i], entryId, version)
    requires forall j :: i < j < |mods| ==> !IsSnapshotOf(mods[j], entryId, version)
    ensures Known(mods, entryId, version) == Some(mods[i])
  {
    var last := |mods| - 1;
    if i < last {
      assert !IsSnapshotOf(mods[last], entryId, version);
      KnownIsLast(mods[..last], entryId, version, i);
    }
  }

  // Modules that are all resolved were fetched one by one, exactly those that are not held.
  lemma {:induction false} ModulesAreFetchedIffNotHeld(env: Env, log: seq<Fetch>, mods: seq<Module>, previous: Option<TaskConfig>)
    ensures var got := ResolvedModules(env, log, mods, previous);
            log <= got.log && (got.result.Ok? ==> KeysFrom(got.log, |log|) == ToFetch(PreviousModules(previous), mods))
  {
    if mods != [] {
      var rest, m := mods[..|mods| - 1], mods[|mods| - 1];
      ModulesAreFetchedIffNotHeld(env, log, rest, previous);
      KnownIffHeld(PreviousModules(previous), m);
      var before, got := ResolvedModules(env, log, rest, previous), ResolvedModules(env, log, mods, previous);
      hide HoldsModule, Known;
      if got.result.Ok? && got.log != before.log {
        assert got.log == before.log + [Fetch(CatalogKey(m.entryId, m.version), env.answers(|before.log|))];
        assert KeysFrom(got.log, |log|) == KeysFrom(before.log, |log|) + [CatalogKey(m.entryId, m.version)];
      }
    }
  }

  // ---- the history of a task ----

  // An accepted save is the draft and, if asked for, the next version; a refused one stores nothing.
  lemma SaveIsKept(env: Env, h: History, save: Save)
    ensures var got, after := Prepared(env, h.log, save.config, Latest(h)).result, Saved(env, h, save);
            && (got.Ok? ==> after.draft == Some(got.value) && Latest(after) == Some(got.value) &&
                            after.versions == h.versions + (if save.asVersion then [got.value] else []))
            && (got.Err? ==> after.draft == h.draft && after.versions == h.versions)
  {
    hide Prepared;
  }

  // ---- what a client's snapshot fields are worth ----

  predicate SameReference(c: Code, d: Code) {
    if c.Inline? then d.Inline? && c.source == d.source else !d.Inline? && KeyOf(c) == KeyOf(d)
  }

  predicate SameReferences(c: TaskConfig, d: TaskConfig) {
    && SameReference(c.code, d.code) && |c.modules| == |d.modules|
    && forall i :: 0 <= i < |c.modules| ==>
         c.modules[i].name == d.modules[i].name && c.modules[i].entryId == d.modules[i].entryId && c.modules[i].version == d.modules[i].version
  }

  lemma {:induction false} ModulesIgnoreFields(env: Env, log: seq<Fetch>, a: seq<Module>, b: seq<Module>, previous: Option<TaskConfig>)
    requires |a| == |b|
    requires forall i :: 0 <= i < |a| ==> a[i].name == b[i].name && a[i].entryId == b[i].entryId && a[i].version == b[i].version
    ensures ResolvedModules(env, log, a, previous) == ResolvedModules(env, log, b, previous)
  {
    if a != [] { ModulesIgnoreFields(env, log, a[..|a| - 1], b[..|b| - 1], previous); }
  }

  // Two configs naming the same references are resolved alike, whatever else they claim about them.
  lemma SnapshotFieldsAreIgnored(env: Env, log: seq<Fetch>, c: TaskConfig, d: TaskConfig, previous: Option<TaskConfig>)
    requires SameReferences(c, d) && forall x :: env.runs(c, x) == env.runs(d, x)
    ensures ResolvedCode(env, log, c, previous) == ResolvedCode(env, log, d, previous)
    ensures ResolvedModules(env, log, c.modules, previous) == ResolvedModules(env, log, d.modules, previous)
  {
    ModulesIgnoreFields(env, log, c.modules, d.modules, previous);
  }

  // ---- an unrelated edit needs no catalog and no storage ----

  ghost predicate AllHeld(config: TaskConfig, previous: TaskConfig) {
    && (config.code.Inline? || HoldsCode(previous, config.code))
    && forall m :: m in config.modules ==> HoldsModule(previous.modules, m)
  }

  lemma {:induction false} HeldIsKnown(mods: seq<Module>, p: Module)
    requires p in mods && ModuleResolved(p)
    ensures Known(mods, p.entryId, p.version).Some?
  {
    var m := mods[|mods| - 1];
    if !(ModuleResolved(m) && m.entryId == p.entryId && m.version == p.version) {
      assert mods == mods[..|mods| - 1] + [m];
      HeldIsKnown(mods[..|mods| - 1], p);
    }
  }

  lemma {:induction false} HeldModulesNeedNoFetch(env: Env, log: seq<Fetch>, mods: seq<Module>, previous: TaskConfig)
    requires forall m :: m in mods ==> HoldsModule(previous.modules, m)
    ensures var got := ResolvedModules(env, log, mods, Some(previous)); got.log == log && got.result.Ok?
  {
    if mods != [] {
      var rest, m := mods[..|mods| - 1], mods[|mods| - 1];
      assert m in mods && forall x :: x in rest ==> x in mods;
      HeldModulesNeedNoFetch(env, log, rest, previous);
      KnownIffHeld(previous.modules, m);
    }
  }

  // With every reference already held, a save makes no fetch and keeps the code snapshot as it was.
  lemma UnrelatedEditNeedsNoFetch(env: Env, h: History, save: Save)
    requires Latest(h).Some? && AllHeld(save.config, Latest(h).value)
    ensures Saved(env, h, save).log == h.log
    ensures var got := Prepared(env, h.log, save.config, Latest(h));
            got.result.Ok? && !save.config.code.Inline? ==> got.result.value.code == Latest(h).value.code
  {
    CodeIsFetchedIffNotHeld(env, h.log, save.config, Latest(h));
    HeldModulesNeedNoFetch(env, h.log, save.config.modules, Latest(h).value);
  }

  // ---- the service's methods ----

  class TaskSaves {
    const env: Env
    var versions: seq<TaskConfig>
    var draft: Option<TaskConfig>
    var log: seq<Fetch>

    function Contents(): History
      reads this
    {
      History(versions, draft, log)
    }

    constructor (env: Env)
      ensures this.env == env && Contents() == History([], None, [])
    {
      this.env, versions, draft, log := env, [], None, [];
    }

    method FetchCatalogCode(entryId: string, version: string) returns (r: Result<Code, Refusal>)
      modifies this`log
      ensures Outcome(r, log) == FetchCatalog(env, old(log), entryId, version)
    {
      var a := env.answers(|log|);
      log := log + [Fetch(CatalogKey(entryId, version), a)];
      if !Usable(a) {
        return Err(NotFetched);
      }
      r := Ok(Catalog(entryId, a.version, Some(a.name), Some(a.language), Some(env.sha(a.source)), Some(a.source)));
    }

    method FetchStorageCode(backendId: string, path: string) returns (r: Result<Code, Refusal>)
      modifies this`log
      ensures Outcome(r, log) == FetchStorage(env, old(log), backendId, path)
    {
      var a := env.answers(|log|);
      log := log + [Fetch(StorageKey(backendId, path), a)];
      if a.Failed? {
        return Err(NotFetched);
      }
      r := Ok(Storage(backendId, path, Some(Basename(path)), env.language(path), Some(env.sha(a.source)), Some(a.source)));
    }

    method ResolveTaskCode(config: TaskConfig, previous: Option<TaskConfig>) returns (r: Result<Code, Refusal>)
      modifies this`log
      ensures Outcome(r, log) == ResolvedCode(env, old(log), config, previous)
    {
      var code := config.code;
      if code.Inline? {
        return Ok(Inline(code.source, env.sha(code.source)));
      }
      if Reusable(previous, code) {
        r := Ok(previous.value.code);
      } else if code.Catalog? {
        r := FetchCatalogCode(code.entryId, code.version);
      } else {
        r := FetchStorageCode(code.backendId, code.path);
      }
      if r.Ok? && !env.runs(config, r.value) {
        r := Err(LanguageNotSupported);
      }
    }

    method ResolveModules(mods: seq<Module>, previous: Option<TaskConfig>) returns (r: Result<seq<Module>, Refusal>)
      modifies this`log
      ensures Outcome(r, log) == ResolvedModules(env, old(log), mods, previous)
    {
      var out: seq<Module> := [];
      for i := 0 to |mods|
        invariant Outcome(Ok(out), log) == ResolvedModules(env, old(log), mods[..i], previous)
      {
        ModulesStep(env, old(log), mods, i, previous);
        hide ResolvedModules;
        var m := mods[i];
        var snap := Known(PreviousModules(previous), m.entryId, m.version);
        if snap.None? {
          var got := FetchCatalogCode(m.entryId, m.version);
          if got.Err? {
            FailureStays(env, old(log), mods, i + 1, previous);
            return Err(got.error);
          }
          snap := Some(AsModule(m.name, got.value));
        }
        out := out + [snap.value.(name := m.name)];
      }
      assert mods[..|mods|] == mods;
      r := Ok(out);
    }

    // Save as a new version, or plain save of the draft.
    method SaveTask(save: Save) returns (r: Result<TaskConfig, Refusal>)
      modifies this
      ensures Contents() == Saved(env, old(Contents()), save)
      ensures r == Prepared(env, old(log), save.config, Latest(old(Contents()))).result
    {
      var previous := Latest(Contents());
      if !env.valid(save.config) {
        return Err(Invalid);
      }
      var code := ResolveTaskCode(save.config, previous);
      if code.Err? {
        return Err(code.error);
      }
      var mods := ResolveModules(save.config.modules, previous);
      if mods.Err? {
        return Err(mods.error);
      }
      var resolved := save.config.(code := code.value, modules := mods.value);
      if !env.valid(resolved) {
        return Err(Invalid);
      }
      if save.asVersion {
        versions := versions + [resolved];
      }
      draft := Some(resolved);
      r := Ok(resolved);
    }
  }

  lemma ModulesStep(env: Env, log: seq<Fetch>, mods: seq<Module>, i: nat, previous: Option<TaskConfig>)
    requires i < |mods|
    ensures ResolvedModules(env, log, mods[..i + 1], previous) == NextResolved(env, ResolvedModules(env, log, mods[..i], previous), mods[i], previous)
  {
    assert mods[..i + 1][..i] == mods[..i];
  }

  lemma {:induction false} FailureStays(env: Env, log: seq<Fetch>, mods: seq<Module>, i: nat, previous: Option<TaskConfig>)
    requires i <= |mods| && ResolvedModules(env, log, mods[..i], previous).result.Err?
    ensures ResolvedModules(env, log, mods, previous) == ResolvedModules(env, log, mods[..i], previous)
    decreases |mods|
  {
    if i == |mods| {
      assert mods[..i] == mods;
    } else {
      var rest := mods[..|mods| - 1];
      assert rest[..i] == mods[..i];
      FailureStays(env, log, rest, i, previous);
    }
  }
}
