// Routes and the address bar (web/src/navigation.ts): parsing a path and its query, and printing a route.
module Routes {
  import opened Basics
  import opened Uri

  datatype PipelineTab = Dag | Runs | Schedule | PipelineConfig | PipelineVersions
  datatype TaskTab = Code | Config | TaskVersions

  datatype Route =
    | Pipelines
    | Pipeline(id: string, tab: Option<PipelineTab>, version: Option<nat>)
    | Tasks
    | Task(id: string, taskTab: Option<TaskTab>, version: Option<nat>)
    | Run(id: string, task: Option<string>)
    | Secrets

  function PipelineTabName(t: PipelineTab): string {
    match t
    case Dag => "dag"
    case Runs => "runs"
    case Schedule => "schedule"
    case PipelineConfig => "config"
    case PipelineVersions => "versions"
  }

  function PipelineTabOf(s: string): Option<PipelineTab> {
    if s == "dag" then Some(Dag)
    else if s == "runs" then Some(Runs)
    else if s == "schedule" then Some(Schedule)
    else if s == "config" then Some(PipelineConfig)
    else if s == "versions" then Some(PipelineVersions)
    else None
  }

  function TaskTabName(t: TaskTab): string {
    match t
    case Code => "code"
    case Config => "config"
    case TaskVersions => "versions"
  }

  function TaskTabOf(s: string): Option<TaskTab> {
    if s == "code" then Some(Code)
    else if s == "config" then Some(Config)
    else if s == "versions" then Some(TaskVersions)
    else None
  }

  // ---- parsing ----

  predicate IsNum(s: string) { s != "" && AllDigits(s) }

  function NonEmpty(ps: seq<string>): seq<string> {
    if ps == [] then [] else (if ps[0] == "" then [] else [ps[0]]) + NonEmpty(ps[1..])
  }

  // None where decodeURIComponent throws.
  function DecodeAll(ps: seq<string>): Option<seq<string>> {
    if ps == [] then Some([])
    else
      var first, rest := Decode(ps[0]), DecodeAll(ps[1..]);
      if first.Some? && rest.Some? then Some([first.value] + rest.value) else None
  }

  function Relative(pathname: string, base: string): string {
    if pathname == base then "" else if base + "/" <= pathname then pathname[|base| + 1..] else ""
  }

  function Parts(pathname: string, base: string): Option<seq<string>> {
    DecodeAll(NonEmpty(Split(Relative(pathname, base), '/')))
  }

  function NumberOf(s: Option<string>): Option<nat> {
    if s.Some? && IsNum(s.value) then Some(ParseDecimal(s.value)) else None
  }

  // None where it throws; anything unrecognised is the pipeline list.
  function ParseRoute(pathname: string, search: string, base: string): Option<Route> {
    var parts := Parts(pathname, base);
    if parts.None? then None else Some(RouteOf(parts.value, search))
  }

  function RouteOf(parts: seq<string>, search: string): Route {
    if parts == [] then Pipelines
    else if parts[0] == "pipelines" then PipelineRoute(parts)
    else if parts[0] == "tasks" then TaskRoute(parts, NumberOf(QueryGet(search, "version")))
    else if parts[0] == "runs" then
      if |parts| == 2 && parts[1] != "" then Run(parts[1], QueryGet(search, "task")) else Pipelines
    else if parts[0] == "secrets" then
      if |parts| == 1 || parts[1] == "" then Secrets else Pipelines
    else Pipelines
  }

  function PipelineRoute(parts: seq<string>): Route
    requires parts != []
  {
    if |parts| == 1 || parts[1] == "" then Pipelines
    else if |parts| == 2 then Pipeline(parts[1], None, None)
    else if |parts| == 4 && parts[2] == "v" && IsNum(parts[3]) then Pipeline(parts[1], None, Some(ParseDecimal(parts[3])))
    else if |parts| == 3 && PipelineTabOf(parts[2]).Some? then
      Pipeline(parts[1], if parts[2] == "dag" then None else PipelineTabOf(parts[2]), None)
    else Pipelines
  }

  function TaskRoute(parts: seq<string>, version: Option<nat>): Route
    requires parts != []
  {
    if |parts| == 1 || parts[1] == "" then Tasks
    else if |parts| == 2 then Task(parts[1], None, version)
    else if |parts| == 3 && TaskTabOf(parts[2]).Some? then
      Task(parts[1], if parts[2] == "code" then None else TaskTabOf(parts[2]), version)
    else Pipelines
  }

  // ---- printing ----

  // "/pipelines/<id>" and its like.
  function Under(area: string, id: string): string { "/" + area + "/" + Encode(id) }

  // The path below the base and the query, with its "?", of a route.
  function PathOf(r: Route): string {
    match r
    case Pipelines => "/" + "pipelines"
    case Pipeline(id, tab, version) =>
      var path := Under("pipelines", id);
      if version.Some? && version.value != 0 then path + "/" + "v" + "/" + Decimal(version.value)
      else if tab.Some? && tab.value != Dag then path + "/" + PipelineTabName(tab.value) else path
    case Tasks => "/" + "tasks"
    case Task(id, tab, _) =>
      var path := Under("tasks", id);
      if tab.Some? && tab.value != Code then path + "/" + TaskTabName(tab.value) else path
    case Run(id, _) => Under("runs", id)
    case Secrets => "/" + "secrets"
  }

  function QueryOf(r: Route): string {
    match r
    case Task(_, _, version) => if version.Some? && version.value != 0 then "?" + "version" + "=" + Decimal(version.value) else ""
    case Run(_, task) => if task.Some? && task.value != "" then "?" + "task" + "=" + Encode(task.value) else ""
    case _ => ""
  }

  function RoutePath(r: Route, base: string): string { base + PathOf(r) + QueryOf(r) }

  // How an address splits into the path and the query a location shows: at the first "?".
  function SplitAddress(s: string): (string, string) {
    if s == "" then ("", "")
    else if s[0] == '?' then ("", s)
    else var r := SplitAddress(s[1..]); ([s[0]] + r.0, r.1)
  }

  lemma {:induction false} SplitAddressAt(path: string, query: string)
    requires '?' !in path && (query == "" || query[0] == '?')
    ensures SplitAddress(path + query) == (path, query)
  {
    if path == "" {
      assert path + query == query;
    } else {
      assert (path + query)[1..] == path[1..] + query && path == [path[0]] + path[1..];
      SplitAddressAt(path[1..], query);
    }
  }

  // ---- the round trip ----

  // A route written the one way printing can tell apart.
  predicate Canonical(r: Route) {
    match r
    case Pipeline(id, tab, version) => id != "" && version != Some(0) && tab != Some(Dag) && (tab.None? || version.None?)
    case Task(id, tab, version) => id != "" && version != Some(0) && tab != Some(Code)
    case Run(id, task) => id != "" && task != Some("")
    case _ => true
  }

  // What a printed path has after the id.
  function Rest(r: Route): seq<string> {
    match r
    case Pipeline(_, tab, version) =>
      if version.Some? && version.value != 0 then ["v", Decimal(version.value)]
      else if tab.Some? && tab.value != Dag then [PipelineTabName(tab.value)] else []
    case Task(_, tab, _) => if tab.Some? && tab.value != Code then [TaskTabName(tab.value)] else []
    case _ => []
  }

  function Area(r: Route): string {
    match r
    case Pipelines => "pipelines"
    case Pipeline(_, _, _) => "pipelines"
    case Tasks => "tasks"
    case Task(_, _, _) => "tasks"
    case Run(_, _) => "runs"
    case Secrets => "secrets"
  }

  predicate HasId(r: Route) { r.Pipeline? || r.Task? || r.Run? }

  // The segments of a printed path.
  function Segments(r: Route): seq<string> { [Area(r)] + (if HasId(r) then [r.id] else []) + Rest(r) }

  // "/" before each encoded segment.
  function Slashed(segments: seq<string>): string {
    if segments == [] then "" else "/" + Encode(segments[0]) + Slashed(segments[1..])
  }

  predicate Word(s: string) { s != "" && forall c :: c in s ==> Unreserved(c) }

  lemma WordsEncodeThemselves(s: string)
    requires Word(s)
    ensures Encode(s) == s
  {
    UnreservedIsKept(s);
  }

  lemma DecimalIsWord(n: nat)
    ensures Word(Decimal(n)) && IsNum(Decimal(n)) && ParseDecimal(Decimal(n)) == n
  {
    DecimalRoundTrip(n);
  }

  lemma SlashedOne(a: string)
    ensures Slashed([a]) == "/" + Encode(a)
  {
    assert [a][1..] == [];
  }

  lemma {:induction false} SlashedConcat(a: seq<string>, b: seq<string>)
    ensures Slashed(a + b) == Slashed(a) + Slashed(b)
  {
    if a == [] {
      assert a + b == b;
    } else {
      assert (a + b)[1..] == a[1..] + b;
      SlashedConcat(a[1..], b);
    }
  }

  lemma TabsAreWords(t: PipelineTab, u: TaskTab)
    ensures Word(PipelineTabName(t)) && Word(TaskTabName(u))
    ensures PipelineTabOf(PipelineTabName(t)) == Some(t) && TaskTabOf(TaskTabName(u)) == Some(u)
    ensures PipelineTabName(t) == "dag" <==> t == Dag
    ensures TaskTabName(u) == "code" <==> u == Code
  {
  }

  lemma AreasAreWords()
    ensures Word("pipelines") && Word("tasks") && Word("runs") && Word("secrets") && Word("v")
  {
  }

  lemma SegmentAfter(before: seq<string>, segment: string)
    ensures Slashed(before + [segment]) == Slashed(before) + "/" + Encode(segment)
  {
    SlashedConcat(before, [segment]);
    SlashedOne(segment);
    hide Slashed, Encode;
    assert Slashed(before) + ("/" + Encode(segment)) == Slashed(before) + "/" + Encode(segment);
  }

  lemma WordAfter(before: seq<string>, word: string)
    requires Word(word)
    ensures Slashed(before + [word]) == Slashed(before) + "/" + word
  {
    SegmentAfter(before, word);
    WordsEncodeThemselves(word);
  }

  lemma AreaSlashed(area: string, id: string)
    requires Word(area)
    ensures Slashed([area]) == "/" + area && Slashed([area] + [id]) == Under(area, id)
  {
    SlashedOne(area);
    WordsEncodeThemselves(area);
    SegmentAfter([area], id);
  }

  lemma RestSlashed(before: seq<string>, r: Route)
    ensures Slashed(before + Rest(r)) ==
            (match r
             case Pipeline(_, tab, version) =>
               if version.Some? && version.value != 0 then Slashed(before) + "/" + "v" + "/" + Decimal(version.value)
               else if tab.Some? && tab.value != Dag then Slashed(before) + "/" + PipelineTabName(tab.value) else Slashed(before)
             case Task(_, tab, _) => if tab.Some? && tab.value != Code then Slashed(before) + "/" + TaskTabName(tab.value) else Slashed(before)
             case _ => Slashed(before))
  {
    assert before + [] == before;
    AreasAreWords();
    hide Slashed, Encode, Word;
    match r
    case Pipeline(_, tab, version) =>
      if version.Some? {
        DecimalIsWord(version.value);
        hide Decimal;
        WordAfter(before, "v");
        WordAfter(before + ["v"], Decimal(version.value));
        assert before + ["v"] + [Decimal(version.value)] == before + ["v", Decimal(version.value)];
      }
      if tab.Some? {
        TabsAreWords(tab.value, Code);
        WordAfter(before, PipelineTabName(tab.value));
      }
    case Task(_, tab, _) =>
      if tab.Some? {
        TabsAreWords(Dag, tab.value);
        WordAfter(before, TaskTabName(tab.value));
      }
    case _ =>
  }

  lemma AreaIsWord(r: Route)
    ensures Word(Area(r))
  {
  }

  lemma PathIsSlashed(r: Route)
    ensures PathOf(r) == Slashed(Segments(r))
  {
    AreaIsWord(r);
    var id := if HasId(r) then r.id else "";
    AreaSlashed(Area(r), id);
    var before := [Area(r)] + (if HasId(r) then [r.id] else []);
    assert [Area(r)] + [] == [Area(r)];
    RestSlashed(before, r);
    hide Slashed, Under, Encode, Decimal, Rest, Word;
  }

  // One more segment in front.
  lemma DecodeNext(segment: string, ps: seq<string>)
    ensures DecodeAll(NonEmpty([Encode(segment)] + ps)) ==
            if DecodeAll(NonEmpty(ps)).Some? then Some((if segment == "" then [] else [segment]) + DecodeAll(NonEmpty(ps)).value) else None
  {
    EncodeIsPlain(segment);
    DecodeEncode(segment);
    assert Encode("") == "";
    var all := [Encode(segment)] + ps;
    assert all[1..] == ps;
    hide Decode, Encode;
    if segment != "" {
      assert ([Encode(segment)] + NonEmpty(ps))[1..] == NonEmpty(ps);
    } else {
      assert [] + NonEmpty(ps) == NonEmpty(ps);
      var rest := DecodeAll(NonEmpty(ps));
      if rest.Some? { assert [] + rest.value == rest.value; }
    }
  }

  lemma NonEmptyNext(segment: string, rest: seq<string>)
    ensures NonEmpty([segment] + rest) == (if segment == "" then [] else [segment]) + NonEmpty(rest)
  {
    assert ([segment] + rest)[1..] == rest;
  }

  lemma SlashedCut(segment: string, rest: seq<string>)
    requires rest != []
    ensures Slashed([segment] + rest) != "" && Slashed(rest) != ""
    ensures Slashed([segment] + rest)[1..] == Encode(segment) + ['/'] + Slashed(rest)[1..]
  {
    hide Encode;
    SlashedStarts(rest);
    SlashedConcat([segment], rest);
    SlashedOne(segment);
    hide Slashed;
    var e, s := Encode(segment), Slashed(rest);
    assert s == ['/'] + s[1..];
    assert ("/" + e + s)[1..] == e + s == e + ['/'] + s[1..];
  }

  // Splitting a slashed path and decoding gives back its non-empty segments.
  lemma {:induction false} SplitSlashed(segments: seq<string>)
    requires segments != []
    ensures Slashed(segments) != ""
    ensures DecodeAll(NonEmpty(Split(Slashed(segments)[1..], '/'))) == Some(NonEmpty(segments))
  {
    var segment, rest := segments[0], segments[1..];
    assert segments == [segment] + rest;
    EncodeIsPlain(segment);
    assert '/' !in Encode(segment);
    NonEmptyNext(segment, rest);
    if rest == [] {
      SlashedOne(segment);
      SplitNone(Encode(segment), '/');
      DecodeNext(segment, []);
      assert [Encode(segment)] + [] == [Encode(segment)];
    } else {
      SplitSlashed(rest);
      SlashedCut(segment, rest);
      SplitOnce(Encode(segment), '/', Slashed(rest)[1..]);
      DecodeNext(segment, Split(Slashed(rest)[1..], '/'));
      hide *;
    }
  }

  lemma {:induction false} SlashedIsPlain(segments: seq<string>)
    ensures '?' !in Slashed(segments)
  {
    if segments != [] {
      EncodeIsPlain(segments[0]);
      assert '?' !in Encode(segments[0]);
      hide Encode;
      SlashedIsPlain(segments[1..]);
    }
  }

  // Printing gives an address that splits into its path and query, and the path has the route's segments.
  lemma PrintedAddress(r: Route, base: string)
    requires '?' !in base
    ensures SplitAddress(RoutePath(r, base)) == (base + PathOf(r), QueryOf(r))
    ensures Parts(base + PathOf(r), base) == Some(NonEmpty(Segments(r)))
  {
    var path := PathOf(r);
    PathIsSlashed(r);
    SlashedIsPlain(Segments(r));
    SplitSlashed(Segments(r));
    SplitAddressAt(base + path, QueryOf(r));
    SlashedStarts(Segments(r));
    hide Slashed, Segments, PathOf, Encode;
    RelativeTo(base, path);
  }

  lemma SlashedStarts(segments: seq<string>)
    requires segments != []
    ensures Slashed(segments) != "" && Slashed(segments)[0] == '/'
  {
  }

  lemma RelativeTo(base: string, path: string)
    requires path != "" && path[0] == '/'
    ensures Relative(base + path, base) == path[1..]
  {
    assert base + path == (base + "/") + path[1..];
    assert base + "/" <= base + path;
    assert (base + path)[|base| + 1..] == path[1..];
  }

  // Exactly the canonical routes come back from the address they are printed as.
  lemma RouteRoundTripIff(r: Route, base: string)
    requires '?' !in base
    ensures var (pathname, search) := SplitAddress(RoutePath(r, base));
            ParseRoute(pathname, search, base) == Some(r) <==> Canonical(r)
  {
    PrintedAddress(r, base);
    ReadBack(r);
    hide Parts, RoutePath, SplitAddress, PathOf, QueryOf;
  }

  lemma {:induction false} NonEmptyConcat(a: seq<string>, b: seq<string>)
    ensures NonEmpty(a + b) == NonEmpty(a) + NonEmpty(b)
  {
    if a == [] {
      assert a + b == b;
    } else {
      assert (a + b)[1..] == a[1..] + b;
      NonEmptyConcat(a[1..], b);
    }
  }

  lemma NonEmptyOne(s: string)
    ensures NonEmpty([s]) == if s == "" then [] else [s]
  {
    assert [s][1..] == [];
  }

  lemma RestIsNonEmpty(r: Route)
    ensures NonEmpty(Rest(r)) == Rest(r)
  {
    hide Decimal;
    match r
    case Pipeline(_, tab, version) =>
      if version.Some? && version.value != 0 {
        NonEmptyConcat(["v"], [Decimal(version.value)]);
        NonEmptyOne("v");
        NonEmptyOne(Decimal(version.value));
        assert ["v"] + [Decimal(version.value)] == ["v", Decimal(version.value)];
      } else if tab.Some? {
        NonEmptyOne(PipelineTabName(tab.value));
      }
    case Task(_, tab, _) => if tab.Some? { NonEmptyOne(TaskTabName(tab.value)); }
    case _ =>
  }

  // The parts a printed path is read as: only an empty id goes missing.
  lemma PartsOf(r: Route)
    ensures NonEmpty(Segments(r)) == [Area(r)] + (if HasId(r) && r.id != "" then [r.id] else []) + Rest(r)
  {
    AreaIsWord(r);
    var id := if HasId(r) then [r.id] else [];
    NonEmptyConcat([Area(r)] + id, Rest(r));
    NonEmptyConcat([Area(r)], id);
    NonEmptyOne(Area(r));
    if HasId(r) { NonEmptyOne(r.id); }
    RestIsNonEmpty(r);
    hide Rest, Area;
  }

  lemma ReadBack(r: Route)
    ensures RouteOf(NonEmpty(Segments(r)), QueryOf(r)) == r <==> Canonical(r)
  {
    PartsOf(r);
    hide NonEmpty, Segments;
    match r
    case Run(id, task) => RunReadBack(id, task);
    case Pipeline(id, tab, version) => PipelineReadBack(id, tab, version);
    case Task(id, tab, version) => TaskReadBack(id, tab, version);
    case _ =>
  }

  lemma RunReadBack(id: string, task: Option<string>)
    ensures RouteOf(["runs"] + (if id != "" then [id] else []), QueryOf(Run(id, task))) == Run(id, task) <==> Canonical(Run(id, task))
  {
    QueryOfNone("task");
    if task.Some? {
      AreTaskAndVersionWords();
      hide QueryGet, Encode;
      QueryOfOne("task", task.value);
    }
    hide QueryGet, Encode;
  }

  lemma AreTaskAndVersionWords()
    ensures Word("task") && Word("version")
  {
  }

  lemma PipelineReadBack(id: string, tab: Option<PipelineTab>, version: Option<nat>)
    ensures var r := Pipeline(id, tab, version);
            RouteOf(["pipelines"] + (if id != "" then [id] else []) + Rest(r), "") == r <==> Canonical(r)
  {
    if tab.Some? { TabsAreWords(tab.value, Code); }
    if version.Some? { DecimalIsWord(version.value); }
    hide Decimal, PipelineTabOf, PipelineTabName, ParseDecimal, IsNum, AllDigits, Word;
  }

  lemma TaskReadBack(id: string, tab: Option<TaskTab>, version: Option<nat>)
    ensures var r := Task(id, tab, version);
            RouteOf(["tasks"] + (if id != "" then [id] else []) + Rest(r), QueryOf(r)) == r <==> Canonical(r)
  {
    if tab.Some? { TabsAreWords(Dag, tab.value); }
    VersionQuery(id, tab, version);
    hide TaskTabOf, TaskTabName, NumberOf, QueryOf, QueryGet, Word;
  }

  lemma VersionQuery(id: string, tab: Option<TaskTab>, version: Option<nat>)
    ensures NumberOf(QueryGet(QueryOf(Task(id, tab, version)), "version")) == if version == Some(0) then None else version
  {
    QueryOfNone("version");
    if version.Some? {
      AreTaskAndVersionWords();
      DecimalIsWord(version.value);
      WordsEncodeThemselves(Decimal(version.value));
      hide QueryGet, Encode, Decimal, ParseDecimal;
      QueryOfOne("version", Decimal(version.value));
    }
    hide QueryGet, Encode, Decimal, ParseDecimal;
  }
}
