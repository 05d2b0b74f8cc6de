/** The dependency-driven reconciler (pkg/dynamicdata/dynamicdata.go): the
    static analysis that finds which resources the policies read under the
    replication prefix, the step that starts and stops one replicator per
    resource type accordingly, its readiness, and the discovery fold that maps
    resource names to resource types. */
module DynamicData {
  import opened Wrappers
  import opened Strings
  import opened Types

  // ---------------------------------------------------------------------------
  // The compiled policy, as the analysis sees it

  /** A term of a reference: a string key, or any other term (a variable, a
      number, ...), which the analysis only compares for equality. */
  datatype Term = Str(s: string) | Other(text: string)

  /** `ast.Ref`: a path of terms such as `data.kubernetes.resources.pods[ns]`. */
  type Ref = seq<Term>

  /** A rule of the compiled policy, by identity (`*ast.Rule`). */
  type Rule = nat

  /** The parts of `*ast.Compiler` that the analysis uses:
      - `rules`: the (finite) rules of the compiled policy;
      - `rulesFor`: `GetRulesForVirtualDocument`;
      - `graph`: `Graph.Dependencies`, in the order its map is iterated;
      - `minimal`: `dependencies.Minimal`, `None` when it fails. */
  datatype Compiler = Compiler(
    rules: set<Rule>,
    rulesFor: Ref -> seq<Rule>,
    graph: Rule -> seq<Rule>,
    minimal: Rule -> Option<seq<Ref>>)

  /** Every rule the compiler hands out, and every dependency of one, is one
      of its rules. */
  ghost predicate Valid(c: Compiler)
  {
    (forall ref, i :: 0 <= i < |c.rulesFor(ref)| ==> c.rulesFor(ref)[i] in c.rules) &&
    (forall r, i :: r in c.rules && 0 <= i < |c.graph(r)| ==> c.graph(r)[i] in c.rules)
  }

  function Elems<T>(s: seq<T>): set<T>
  {
    set x | x in s
  }

  // ---------------------------------------------------------------------------
  // What the analysis finds

  predicate HasPrefix(ref: Ref, prefix: Ref)
  {
    |prefix| <= |ref| && ref[..|prefix|] == prefix
  }

  /** A reference contributes a name when it has the prefix, is strictly
      longer than it, and its term right after the prefix is a string. */
  predicate Contributes(ref: Ref, prefix: Ref)
  {
    HasPrefix(ref, prefix) && |ref| > |prefix| && ref[|prefix|].Str?
  }

  /** The names a list of references contributes. */
  function NamesOf(refs: seq<Ref>, prefix: Ref): set<string>
  {
    set i | 0 <= i < |refs| && Contributes(refs[i], prefix) :: refs[i][|prefix|].s
  }

  /** The names one rule contributes: none when its minimal dependencies
      cannot be computed. */
  function RuleNames(c: Compiler, r: Rule, prefix: Ref): set<string>
  {
    match c.minimal(r)
    case None => {}
    case Some(deps) => NamesOf(deps, prefix)
  }

  /** The names the rules of `s` contribute together. */
  function NamesOver(c: Compiler, s: set<Rule>, prefix: Ref): set<string>
  {
    set r, n | r in s && n in RuleNames(c, r, prefix) :: n
  }

  /** The entrypoints that have no rules, in order. */
  function Missing(c: Compiler, entrypoints: seq<Ref>): (r: seq<Ref>)
    ensures forall x :: x in r <==> x in entrypoints && c.rulesFor(x) == []
    decreases |entrypoints|
  {
    if entrypoints == [] then []
    else
      var init := entrypoints[..|entrypoints| - 1];
      var last := entrypoints[|entrypoints| - 1];
      assert entrypoints == init + [last];
      Missing(c, init) + (if c.rulesFor(last) == [] then [last] else [])
  }

  /** The rules of the entrypoints, where the traversal starts. */
  function Roots(c: Compiler, entrypoints: seq<Ref>): set<Rule>
    decreases |entrypoints|
  {
    if entrypoints == [] then {}
    else Roots(c, entrypoints[..|entrypoints| - 1]) + Elems(c.rulesFor(entrypoints[|entrypoints| - 1]))
  }

  lemma {:induction false} RootsAreRules(c: Compiler, entrypoints: seq<Ref>)
    requires Valid(c)
    ensures Roots(c, entrypoints) <= c.rules
    decreases |entrypoints|
  {
    if entrypoints != [] {
      RootsAreRules(c, entrypoints[..|entrypoints| - 1]);
    }
  }

  /** No dependency of a rule of `s` leads out of `s`. */
  ghost predicate Closed(c: Compiler, s: set<Rule>)
  {
    forall r, i :: r in s && 0 <= i < |c.graph(r)| ==> c.graph(r)[i] in s
  }

  /** The rules reachable from `roots` through the dependency graph: those in
      every closed set that holds the roots. */
  ghost function Reach(c: Compiler, roots: set<Rule>): set<Rule>
  {
    set r | r in c.rules && forall s :: roots <= s && Closed(c, s) ==> r in s
  }

  /** The roots are reachable. */
  lemma ReachHoldsRoots(c: Compiler, roots: set<Rule>)
    requires roots <= c.rules
    ensures roots <= Reach(c, roots)
  {
  }

  /** Dependencies of reachable rules are reachable, also for a rule whose
      minimal dependencies cannot be computed. */
  lemma ReachClosed(c: Compiler, roots: set<Rule>)
    requires Valid(c)
    ensures Closed(c, Reach(c, roots))
  {
    forall r, i | r in Reach(c, roots) && 0 <= i < |c.graph(r)|
      ensures c.graph(r)[i] in Reach(c, roots)
    {
      forall s | roots <= s && Closed(c, s)
        ensures c.graph(r)[i] in s
      {
        assert r in s;
      }
    }
  }

  /** Nothing else is reachable: any closed set holding the roots holds all
      of Reach. */
  lemma ReachLeast(c: Compiler, roots: set<Rule>, s: set<Rule>)
    requires roots <= s && Closed(c, s)
    ensures Reach(c, roots) <= s
  {
  }

  lemma NamesOfSnoc(refs: seq<Ref>, j: nat, prefix: Ref)
    requires j < |refs|
    ensures NamesOf(refs[..j + 1], prefix) ==
      NamesOf(refs[..j], prefix) + (if Contributes(refs[j], prefix) then {refs[j][|prefix|].s} else {})
  {
    var a, b := refs[..j + 1], refs[..j];
    assert forall i :: 0 <= i < j ==> a[i] == b[i];
    assert a[j] == refs[j];
  }

  lemma NamesOverAdd(c: Compiler, s: set<Rule>, r: Rule, prefix: Ref)
    ensures NamesOver(c, s + {r}, prefix) == NamesOver(c, s, prefix) + RuleNames(c, r, prefix)
  {
  }

  lemma ElemsAppend<T>(a: seq<T>, b: seq<T>)
    ensures Elems(a + b) == Elems(a) + Elems(b)
  {
  }

  /** The entrypoint loop of `analyzeRefs`: the rules of every entrypoint,
      queued in order, and the entrypoints without rules. */
  method QueueEntrypoints(c: Compiler, entrypoints: seq<Ref>) returns (queue: seq<Rule>, missing: seq<Ref>)
    ensures Elems(queue) == Roots(c, entrypoints)
    ensures missing == Missing(c, entrypoints)
  {
    queue, missing := [], [];
    var k := 0;
    while k < |entrypoints|
      invariant 0 <= k <= |entrypoints|
      invariant Elems(queue) == Roots(c, entrypoints[..k])
      invariant missing == Missing(c, entrypoints[..k])
    {
      var ref := entrypoints[k];
      var rules := c.rulesFor(ref);
      if |rules| == 0 {
        missing := missing + [ref];
      }
      ElemsAppend(queue, rules);
      queue := queue + rules;
      assert entrypoints[..k + 1][..k] == entrypoints[..k];
      k := k + 1;
    }
    assert entrypoints[..k] == entrypoints;
  }

  /** The inner loop of `analyzeRefs` over one rule's minimal dependencies:
      the names they contribute. */
  method CollectNames(deps: seq<Ref>, prefix: Ref) returns (found: set<string>)
    ensures found == NamesOf(deps, prefix)
  {
    found := {};
    var j := 0;
    while j < |deps|
      invariant 0 <= j <= |deps|
      invariant found == NamesOf(deps[..j], prefix)
    {
      var ref := deps[j];
      NamesOfSnoc(deps, j, prefix);
      if |ref| > |prefix| && ref[..|prefix|] == prefix && ref[|prefix|].Str? {
        found := found + {ref[|prefix|].s};
      }
      j := j + 1;
    }
    assert deps[..j] == deps;
  }

  /** The names one visited rule adds: those of its minimal dependencies, or
      none when they cannot be computed. */
  method RuleNamesOf(c: Compiler, r: Rule, prefix: Ref) returns (found: set<string>)
    ensures found == RuleNames(c, r, prefix)
  {
    match c.minimal(r)
    case None =>
      found := {};
    case Some(deps) =>
      found := CollectNames(deps, prefix);
  }

  /** The traversal of `analyzeRefs`: each rule is expanded once, its
      dependencies queued whether or not its minimal dependencies can be
      computed; the names are those of every rule reachable from the queue. */
  method Traverse(c: Compiler, queue0: seq<Rule>, prefix: Ref) returns (names: set<string>)
    requires Valid(c) && Elems(queue0) <= c.rules
    ensures names == NamesOver(c, Reach(c, Elems(queue0)), prefix)
  {
    ghost var roots := Elems(queue0);
    ghost var reach := Reach(c, roots);
    ReachHoldsRoots(c, roots);
    ReachClosed(c, roots);
    var visited: set<Rule> := {};
    var queue := queue0;
    names := {};
    while |queue| > 0
      invariant Frontier(c, roots, visited, queue)
      invariant Within(reach, visited, queue) && reach <= c.rules
      invariant names == NamesOver(c, visited, prefix)
      decreases |c.rules - visited|, |queue|
    {
      var next := queue[0];
      if next in visited {
        FrontierSkip(c, roots, visited, queue);
        queue := queue[1..];
        continue;
      }
      assert c.rules - (visited + {next}) < c.rules - visited by {
        assert next in reach;
      }
      FrontierExpand(c, roots, visited, queue);
      WithinExpand(c, reach, visited, queue);
      assert NamesOver(c, visited + {next}, prefix) == names + RuleNames(c, next, prefix) by {
        NamesOverAdd(c, visited, next, prefix);
      }
      visited := visited + {next};
      queue := queue[1..] + c.graph(next);
      var found := RuleNamesOf(c, next, prefix);
      names := names + found;
    }
    assert visited == reach by {
      FrontierDone(c, roots, visited);
      ReachLeast(c, roots, visited);
    }
  }

  /** What the traversal keeps: every root and every dependency of a visited
      rule is visited or still queued. */
  ghost predicate Frontier(c: Compiler, roots: set<Rule>, visited: set<Rule>, queue: seq<Rule>)
  {
    (forall x :: x in roots ==> x in visited || x in queue) &&
    (forall v, i :: v in visited && 0 <= i < |c.graph(v)| ==> c.graph(v)[i] in visited || c.graph(v)[i] in queue)
  }

  /** Nothing visited or queued is out of `reach`. */
  ghost predicate Within(reach: set<Rule>, visited: set<Rule>, queue: seq<Rule>)
  {
    visited <= reach && forall x :: x in queue ==> x in reach
  }

  lemma FrontierSkip(c: Compiler, roots: set<Rule>, visited: set<Rule>, queue: seq<Rule>)
    requires |queue| > 0 && queue[0] in visited && Frontier(c, roots, visited, queue)
    ensures Frontier(c, roots, visited, queue[1..])
  {
    assert queue == [queue[0]] + queue[1..];
  }

  lemma FrontierExpand(c: Compiler, roots: set<Rule>, visited: set<Rule>, queue: seq<Rule>)
    requires |queue| > 0 && Frontier(c, roots, visited, queue)
    ensures Frontier(c, roots, visited + {queue[0]}, queue[1..] + c.graph(queue[0]))
  {
    var next := queue[0];
    var queue' := queue[1..] + c.graph(next);
    assert queue == [next] + queue[1..];
    forall v, i | v in visited + {next} && 0 <= i < |c.graph(v)|
      ensures c.graph(v)[i] in visited + {next} || c.graph(v)[i] in queue'
    {
      if v == next {
        assert c.graph(v)[i] == queue'[|queue| - 1 + i];
      }
    }
  }

  lemma WithinExpand(c: Compiler, reach: set<Rule>, visited: set<Rule>, queue: seq<Rule>)
    requires |queue| > 0 && Closed(c, reach) && Within(reach, visited, queue)
    ensures Within(reach, visited + {queue[0]}, queue[1..] + c.graph(queue[0]))
  {
    assert queue[0] in queue;
  }

  lemma FrontierDone(c: Compiler, roots: set<Rule>, visited: set<Rule>)
    requires Frontier(c, roots, visited, [])
    ensures roots <= visited && Closed(c, visited)
  {
  }

  /** `analyzeRefs`: no names and the missing entrypoints when some
      entrypoint has no rules; otherwise, and with nothing missing, the names
      the reachable rules contribute, each once and in ascending order. */
  method AnalyzeRefs(c: Compiler, entrypoints: seq<Ref>, prefix: Ref) returns (refs: seq<string>, missing: seq<Ref>)
    requires Valid(c)
    ensures missing == Missing(c, entrypoints)
    ensures missing != [] ==> refs == []
    ensures missing == [] ==> refs == SortedOf(NamesOver(c, Reach(c, Roots(c, entrypoints)), prefix))
  {
    var queue;
    queue, missing := QueueEntrypoints(c, entrypoints);
    if |missing| > 0 {
      return [], missing;
    }
    RootsAreRules(c, entrypoints);
    var names := Traverse(c, queue, prefix);
    refs := SortStrings(names);
  }

  /** One turn of the analyzer loop on a new compiler: a result is published
      only when the entrypoint has rules, and then it holds the names that the
      rules reachable from it contribute, sorted and without duplicates. */
  method AnalyzerTurn(c: Compiler, entry: Ref, prefix: Ref) returns (published: Option<seq<string>>)
    requires Valid(c)
    ensures published.None? <==> c.rulesFor(entry) == []
    ensures published.Some? ==> published.value == SortedOf(NamesOver(c, Reach(c, Roots(c, [entry])), prefix))
  {
    var refs, missing := AnalyzeRefs(c, [entry], prefix);
    assert entry in [entry];
    assert missing != [] <==> c.rulesFor(entry) == [] by {
      if c.rulesFor(entry) == [] {
        assert entry in missing;
      }
    }
    if |missing| > 0 {
      return None;
    }
    published := Some(refs);
  }

  /** What a published result lists: a name is there exactly when some rule
      reachable from the entrypoint contributes it, each name once, in
      ascending order. */
  lemma PublishedNames(c: Compiler, entry: Ref, prefix: Ref, name: string)
    ensures var refs := SortedOf(NamesOver(c, Reach(c, Roots(c, [entry])), prefix));
      StrictlySorted(refs) &&
      (name in refs <==> exists r :: r in Reach(c, Roots(c, [entry])) && name in RuleNames(c, r, prefix))
  {
  }

  // ---------------------------------------------------------------------------
  // Starting and stopping replicators

  /** A running replicator (`cancellableSync`): the resource type it
      replicates and the number of replicators started before it, which tells
      a replicator apart from a later one for the same type. */
  datatype Replicator = Replicator(rt: ResourceType, serial: nat)

  /** The resource types a result's names resolve to. */
  function Wanted(refs: seq<string>, rts: map<string, ResourceType>): set<ResourceType>
    requires forall i :: 0 <= i < |refs| ==> refs[i] in rts
  {
    set i | 0 <= i < |refs| :: rts[refs[i]]
  }

  /** `dynamicdata.Sync`: whether the last result could be resolved, and the
      replicator running for each resource type. `started` counts the
      replicators started so far and `stopped` holds those cancelled. */
  class Sync {
    var ready: bool
    var running: map<ResourceType, Replicator>
    var started: nat
    var stopped: set<Replicator>

    constructor ()
      ensures !ready && running == map[] && started == 0 && stopped == {}
      ensures Valid()
    {
      ready, running, started, stopped := false, map[], 0, {};
    }

    /** Each running replicator serves its own key, was started earlier and
        has not been cancelled; every cancelled one was started earlier. */
    ghost predicate Valid()
      reads this
    {
      (forall rt :: rt in running ==> running[rt].rt == rt && running[rt].serial < started) &&
      (forall rt :: rt in running ==> running[rt] !in stopped) &&
      (forall x :: x in stopped ==> x.serial < started)
    }

    /** `Sync.Ready`: the last result was resolved and every running
        replicator reports ready (`replicaReady` stands for their own
        readiness). */
    method IsReady(replicaReady: Replicator -> bool) returns (b: bool)
      ensures b <==> ready && forall rt :: rt in running ==> replicaReady(running[rt])
    {
      if !ready {
        return false;
      }
      var keys := running.Keys;
      while keys != {}
        invariant keys <= running.Keys
        invariant forall rt :: rt in running && rt !in keys ==> replicaReady(running[rt])
        decreases keys
      {
        var rt :| rt in keys;
        if !replicaReady(running[rt]) {
          return false;
        }
        keys := keys - {rt};
      }
      b := true;
    }

    /** `processAnalysisResult`: a name that does not resolve marks the sync
        not ready and changes nothing else; otherwise the sync is ready, a
        replicator runs for exactly the wanted types, the ones already running
        are kept, the new ones are started afresh and the others are cancelled
        and removed. */
    method ProcessAnalysisResult(refs: seq<string>, rts: map<string, ResourceType>)
      requires Valid()
      modifies this
      ensures Valid()
      ensures (exists i :: 0 <= i < |refs| && refs[i] !in rts) ==>
        !ready && running == old(running) && started == old(started) && stopped == old(stopped)
      ensures (forall i :: 0 <= i < |refs| ==> refs[i] in rts) ==>
        ready && running.Keys == Wanted(refs, rts) &&
        (forall rt :: rt in running && rt in old(running) ==> running[rt] == old(running)[rt]) &&
        (forall rt :: rt in running && rt !in old(running) ==> old(started) <= running[rt].serial) &&
        stopped == old(stopped) + Dropped(old(running), running.Keys)
    {
      var i := 0;
      while i < |refs|
        invariant 0 <= i <= |refs|
        invariant forall j :: 0 <= j < i ==> refs[j] in rts
      {
        if refs[i] !in rts {
          ready := false;
          return;
        }
        i := i + 1;
      }
      ready := true;
      var create := Start(refs, rts);
      Stop(create);
    }

    /** The first loop of the reconciling half: a replicator is started for
        every wanted type that has none. */
    method Start(refs: seq<string>, rts: map<string, ResourceType>) returns (create: set<ResourceType>)
      requires Valid() && forall i :: 0 <= i < |refs| ==> refs[i] in rts
      modifies this
      ensures Valid() && create == Wanted(refs, rts)
      ensures ready == old(ready) && stopped == old(stopped) && old(started) <= started
      ensures running.Keys == old(running).Keys + create
      ensures forall rt :: rt in old(running) ==> running[rt] == old(running)[rt]
      ensures forall rt :: rt in running && rt !in old(running) ==> old(started) <= running[rt].serial
    {
      create := {};
      var i := 0;
      while i < |refs|
        invariant 0 <= i <= |refs| && Valid()
        invariant create == Wanted(refs[..i], rts)
        invariant ready == old(ready) && stopped == old(stopped) && old(started) <= started
        invariant running.Keys == old(running).Keys + create
        invariant forall rt :: rt in old(running) ==> running[rt] == old(running)[rt]
        invariant forall rt :: rt in running && rt !in old(running) ==> old(started) <= running[rt].serial
      {
        var rt := rts[refs[i]];
        assert Wanted(refs[..i + 1], rts) == create + {rt} by {
          assert refs[..i + 1][i] == refs[i];
          assert forall j :: 0 <= j < i ==> refs[..i + 1][j] == refs[..i][j];
        }
        create := create + {rt};
        if rt !in running {
          Launch(rt);
        }
        i := i + 1;
      }
      assert refs[..i] == refs;
    }

    /** Starts a replicator for `rt`. */
    method Launch(rt: ResourceType)
      requires Valid() && rt !in running
      modifies this
      ensures Valid()
      ensures running == old(running)[rt := Replicator(rt, old(started))] && started == old(started) + 1
      ensures ready == old(ready) && stopped == old(stopped)
    {
      running := running[rt := Replicator(rt, started)];
      started := started + 1;
    }

    /** Cancels the replicator for `rt` and forgets it. */
    method Cancel(rt: ResourceType)
      requires Valid() && rt in running
      modifies this
      ensures Valid()
      ensures running == old(running) - {rt} && stopped == old(stopped) + {old(running)[rt]}
      ensures ready == old(ready) && started == old(started)
    {
      stopped := stopped + {running[rt]};
      running := running - {rt};
    }

    /** The second loop: every replicator whose type is not in `create` is
        cancelled and removed. */
    method Stop(create: set<ResourceType>)
      requires Valid() && create <= running.Keys
      modifies this
      ensures Valid() && running.Keys == create
      ensures ready == old(ready) && started == old(started)
      ensures forall rt :: rt in running ==> running[rt] == old(running)[rt]
      ensures stopped == old(stopped) + Dropped(old(running), create)
    {
      var keys := running.Keys;
      while keys != {}
        invariant keys <= old(running).Keys && Valid()
        invariant ready == old(ready) && started == old(started)
        invariant running.Keys == old(running).Keys * (keys + create)
        invariant forall rt :: rt in running ==> running[rt] == old(running)[rt]
        invariant stopped == old(stopped) + Dropped(old(running), keys + create)
        decreases keys
      {
        var rt :| rt in keys;
        if rt !in create {
          DroppedStep(old(running), keys + create, rt);
          assert (keys - {rt}) + create == keys + create - {rt};
          Cancel(rt);
        } else {
          assert (keys - {rt}) + create == keys + create;
        }
        keys := keys - {rt};
      }
      assert {} + create == create;
    }
  }

  /** The replicators of `m` whose types are not kept. */
  function Dropped(m: map<ResourceType, Replicator>, keep: set<ResourceType>): set<Replicator>
  {
    set rt | rt in m && rt !in keep :: m[rt]
  }

  lemma DroppedStep(m: map<ResourceType, Replicator>, keep: set<ResourceType>, rt: ResourceType)
    requires rt in m && rt in keep
    ensures Dropped(m, keep - {rt}) == Dropped(m, keep) + {m[rt]}
  {
  }

  // ---------------------------------------------------------------------------
  // Resolving resource names to resource types

  /** A resource the discovery API lists (`metav1.APIResource`); its group and
      version may be left empty. */
  datatype APIResource = APIResource(name: string, namespaced: bool, group: string, version: string)

  /** The resources of one group/version (`metav1.APIResourceList`). */
  datatype APIResourceList = APIResourceList(groupVersion: string, resources: seq<APIResource>)

  datatype GroupVersion = GroupVersion(group: string, version: string)

  /** `schema.ParseGroupVersion`: `""` and `"/"` are the empty group/version,
      a value without a slash is a version of the core group, one slash
      separates group and version, and more slashes are an error. */
  function ParseGroupVersion(gv: string): (r: Result<GroupVersion, string>)
    ensures r.Failure? <==> |Split(gv, '/')| > 2
    ensures r.Failure? ==> r.error == "unexpected GroupVersion string: " + gv
    ensures |Split(gv, '/')| == 1 ==> r == Success(GroupVersion("", gv))
    ensures |Split(gv, '/')| == 2 ==> r.Success? && r.value.group + "/" + r.value.version == gv
    ensures r.Success? ==> '/' !in r.value.group && '/' !in r.value.version
  {
    var parts := Split(gv, '/');
    JoinSplit(gv, '/');
    if gv == "" || gv == "/" then
      assert gv == "/" ==> parts == ["", ""] by {
        if gv == "/" {
          SplitPair("", "", '/');
          assert "" + ['/'] + "" == gv;
        }
      }
      Success(GroupVersion("", ""))
    else if |parts| == 1 then Success(GroupVersion("", gv))
    else if |parts| == 2 then
      assert Join(parts, ['/']) == parts[0] + "/" + parts[1];
      Success(GroupVersion(parts[0], parts[1]))
    else Failure("unexpected GroupVersion string: " + gv)
  }

  /** The resource type of one listed resource: its own group and version,
      each filled in from the list's group/version when empty. */
  function Entry(gv: GroupVersion, ar: APIResource): (r: ResourceType)
    ensures r.resource == ar.name && r.namespaced == ar.namespaced
    ensures r.group == (if ar.group == "" then gv.group else ar.group)
    ensures r.version == (if ar.version == "" then gv.version else ar.version)
  {
    var rt := ResourceType(ar.namespaced, ar.name, ar.group, ar.version);
    var rt := if rt.group == "" then rt.(group := gv.group) else rt;
    if rt.version == "" then rt.(version := gv.version) else rt
  }

  /** The mapping after the resources of one list are entered in order. */
  function EnterAll(m: map<string, ResourceType>, gv: GroupVersion, ars: seq<APIResource>): map<string, ResourceType>
    decreases |ars|
  {
    if ars == [] then m
    else
      var last := ars[|ars| - 1];
      EnterAll(m, gv, ars[..|ars| - 1])[last.name := Entry(gv, last)]
  }

  /** The fold of `resolveResourceTypes` over the discovered lists: the first
      group/version that does not parse aborts it. */
  function ResolveAll(lists: seq<APIResourceList>): Result<map<string, ResourceType>, string>
    decreases |lists|
  {
    if lists == [] then Success(map[])
    else
      var last := lists[|lists| - 1];
      match ResolveAll(lists[..|lists| - 1])
      case Failure(e) => Failure(e)
      case Success(m) =>
        match ParseGroupVersion(last.groupVersion)
        case Failure(e) => Failure(e)
        case Success(gv) => Success(EnterAll(m, gv, last.resources))
  }

  /** The inner loop of `resolveResourceTypes`: the resources of one list
      entered in order, a later one replacing an earlier one of the same
      name. */
  method EnterResources(m: map<string, ResourceType>, gv: GroupVersion, ars: seq<APIResource>) returns (result: map<string, ResourceType>)
    ensures result == EnterAll(m, gv, ars)
  {
    result := m;
    var j := 0;
    while j < |ars|
      invariant 0 <= j <= |ars|
      invariant result == EnterAll(m, gv, ars[..j])
    {
      var ar := ars[j];
      assert EnterAll(m, gv, ars[..j + 1]) == EnterAll(m, gv, ars[..j])[ar.name := Entry(gv, ar)] by {
        assert ars[..j + 1][..j] == ars[..j] && ars[..j + 1][j] == ar;
      }
      var rt := ResourceType(ar.namespaced, ar.name, ar.group, ar.version);
      if rt.group == "" {
        rt := rt.(group := gv.group);
      }
      if rt.version == "" {
        rt := rt.(version := gv.version);
      }
      assert rt == Entry(gv, ar);
      result := result[ar.name := rt];
      j := j + 1;
    }
    assert ars[..j] == ars;
  }

  /** A failure in the first `k` lists is the result of the whole fold. */
  lemma {:induction false} ResolveAborts(lists: seq<APIResourceList>, k: nat)
    requires k <= |lists| && ResolveAll(lists[..k]).Failure?
    ensures ResolveAll(lists) == ResolveAll(lists[..k])
    decreases |lists|
  {
    if k < |lists| {
      var init := lists[..|lists| - 1];
      assert init[..k] == lists[..k];
      ResolveAborts(init, k);
    } else {
      assert lists[..k] == lists;
    }
  }

  /** `resolveResourceTypes`, given what discovery returned: a discovery
      failure is reported with its context, otherwise the fold over the
      lists. */
  method ResolveResourceTypes(discovered: Result<seq<APIResourceList>, string>) returns (r: Result<map<string, ResourceType>, string>)
    ensures discovered.Failure? ==> r == Failure("failed to get server preferred resources: " + discovered.error)
    ensures discovered.Success? ==> r == ResolveAll(discovered.value)
  {
    if discovered.Failure? {
      return Failure("failed to get server preferred resources: " + discovered.error);
    }
    var lists := discovered.value;
    var result: map<string, ResourceType> := map[];
    var i := 0;
    while i < |lists|
      invariant 0 <= i <= |lists|
      invariant ResolveAll(lists[..i]) == Success(result)
    {
      assert lists[..i + 1][..i] == lists[..i];
      var gv := ParseGroupVersion(lists[i].groupVersion);
      if gv.Failure? {
        ResolveAborts(lists, i + 1);
        return Failure(gv.error);
      }
      result := EnterResources(result, gv.value, lists[i].resources);
      i := i + 1;
    }
    assert lists[..i] == lists;
    r := Success(result);
  }

  /** Within one list a later resource of the same name wins. */
  lemma {:induction false} EnterAllLastWins(m: map<string, ResourceType>, gv: GroupVersion, ars: seq<APIResource>, j: nat)
    requires j < |ars| && forall k :: j < k < |ars| ==> ars[k].name != ars[j].name
    ensures ars[j].name in EnterAll(m, gv, ars) && EnterAll(m, gv, ars)[ars[j].name] == Entry(gv, ars[j])
    decreases |ars|
  {
    if j < |ars| - 1 {
      var init := ars[..|ars| - 1];
      assert init[j] == ars[j];
      EnterAllLastWins(m, gv, init, j);
    }
  }

  /** The names a list enters are added; every other entry is kept. */
  lemma {:induction false} EnterAllKeeps(m: map<string, ResourceType>, gv: GroupVersion, ars: seq<APIResource>, name: string)
    ensures name in EnterAll(m, gv, ars) <==> name in m || exists k :: 0 <= k < |ars| && ars[k].name == name
    ensures (forall k :: 0 <= k < |ars| ==> ars[k].name != name) && name in m ==> EnterAll(m, gv, ars)[name] == m[name]
    decreases |ars|
  {
    if ars != [] {
      var init := ars[..|ars| - 1];
      EnterAllKeeps(m, gv, init, name);
      assert forall k :: 0 <= k < |init| ==> init[k] == ars[k];
      if exists k :: 0 <= k < |ars| && ars[k].name == name {
        var k :| 0 <= k < |ars| && ars[k].name == name;
        if k < |init| {
          assert init[k].name == name;
        }
      }
    }
  }

  /** The fold fails exactly when some list's group/version does not
      parse. */
  lemma {:induction false} ResolveFails(lists: seq<APIResourceList>)
    ensures ResolveAll(lists).Failure? <==>
      exists i :: 0 <= i < |lists| && ParseGroupVersion(lists[i].groupVersion).Failure?
    decreases |lists|
  {
    if lists != [] {
      var init := lists[..|lists| - 1];
      ResolveFails(init);
      assert forall i :: 0 <= i < |init| ==> init[i] == lists[i];
    }
  }

  /** Across lists too, the last listing of a name decides its resource
      type, with group and version filled in from its own list. */
  lemma {:induction false} ResolveLastWins(lists: seq<APIResourceList>, i: nat, j: nat, m: map<string, ResourceType>)
    requires ResolveAll(lists) == Success(m)
    requires i < |lists| && j < |lists[i].resources|
    requires forall k :: j < k < |lists[i].resources| ==> lists[i].resources[k].name != lists[i].resources[j].name
    requires forall i', k :: i < i' < |lists| && 0 <= k < |lists[i'].resources| ==>
      lists[i'].resources[k].name != lists[i].resources[j].name
    ensures ParseGroupVersion(lists[i].groupVersion).Success?
    ensures var ar := lists[i].resources[j];
      ar.name in m && m[ar.name] == Entry(ParseGroupVersion(lists[i].groupVersion).value, ar)
    decreases |lists|
  {
    var init := lists[..|lists| - 1];
    var last := lists[|lists| - 1];
    var m0 := ResolveAll(init).value;
    var gv := ParseGroupVersion(last.groupVersion).value;
    assert m == EnterAll(m0, gv, last.resources);
    if i == |lists| - 1 {
      EnterAllLastWins(m0, gv, last.resources, j);
    } else {
      assert init[i] == lists[i];
      ResolveLastWins(init, i, j, m0);
      EnterAllKeeps(m0, gv, last.resources, lists[i].resources[j].name);
    }
  }
}
