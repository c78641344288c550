/**
 * The fragment merger: `mergeTile` (registering a merge target or merging a merge source into
 * one), `mergeProperties` and `mergeExecutionConfiguration`. Executions are matched by the id
 * `pluginGroup:pluginArtifact:executionId`.
 */
module Merger {
  import opened Wrappers
  import opened JavaStrings
  import opened Exceptions
  import opened Xpp3
  import opened MavenModel
  import opened GavUtil
  import opened TileModel
  import opened Discovery

  /** The id an execution is indexed by: plugin group, plugin artifact and execution id, colon-joined. */
  function ExecutionId(p: Plugin, e: Execution): (r: string)
    ensures r == Join([p.groupId, p.artifactId, e.id], ':')
  {
    JoinThree(p.groupId, p.artifactId, e.id);
    p.groupId + ":" + p.artifactId + ":" + e.id
  }

  /** Executions of one plugin share an id exactly when their own ids are equal. */
  lemma ExecutionIdIdentity(p: Plugin, e1: Execution, e2: Execution)
    ensures ExecutionId(p, e1) == ExecutionId(p, e2) <==> e1.id == e2.id
  {
    var prefix := p.groupId + ":" + p.artifactId + ":";
    assert ExecutionId(p, e1) == prefix + e1.id && ExecutionId(p, e2) == prefix + e2.id;
    assert (prefix + e1.id)[|prefix|..] == e1.id && (prefix + e2.id)[|prefix|..] == e2.id;
  }

  /** Every execution id of a plugin list. */
  function ExecutionIds(plugins: seq<Plugin>): set<string> {
    var sites := Sites(plugins);
    set k | 0 <= k < |sites| :: ExecutionId(sites[k].plugin, sites[k].execution)
  }

  /**
   * `registerTargetTile` (`mergeTile(tile, false)`): every execution id of the tile's build now
   * names the tile; other ids keep their tile. A tile without a build fails on `getBuild()`.
   */
  function Register(s: State, ref: nat): (r: Result<State, Exception>)
    requires ref < |s.heap|
    ensures r.Failure? <==> s.heap[ref].model.build.None?
    ensures r.Success? ==> r.value == s.(byExecution := r.value.byExecution)
    ensures r.Success? ==>
      var ids := ExecutionIds(s.heap[ref].model.build.value.plugins);
      && r.value.byExecution.Keys == s.byExecution.Keys + ids
      && (forall e :: e in ids ==> r.value.byExecution[e] == ref)
      && (forall e :: e in s.byExecution && e !in ids ==> r.value.byExecution[e] == s.byExecution[e])
    ensures Valid(s) && r.Success? ==> Valid(r.value)
  {
    match s.heap[ref].model.build
    case None => Failure(NullPointer("build"))
    case Some(b) =>
      var ids := ExecutionIds(b.plugins);
      Success(s.(byExecution := s.byExecution + map e | e in ids :: ref))
  }

  /** `mergeProperties`: the target's properties overlaid with the fragment's. */
  function MergeProperties(target: Model, fragment: Model): (r: Model)
    ensures r.properties.Keys == target.properties.Keys + fragment.properties.Keys
    ensures forall k :: k in fragment.properties ==> r.properties[k] == fragment.properties[k]
    ensures forall k :: k in target.properties && k !in fragment.properties ==> r.properties[k] == target.properties[k]
    ensures r.(properties := map[]) == target.(properties := map[])
  {
    target.(properties := target.properties + fragment.properties)
  }

  /** Merging the same fragment twice gives the properties of merging it once. */
  lemma MergePropertiesIdempotent(target: Model, fragment: Model)
    ensures MergeProperties(MergeProperties(target, fragment), fragment) == MergeProperties(target, fragment)
  {
  }

  /**
   * The body of `mergeExecutionConfiguration` for one target execution whose id matched. Its
   * configuration must exist (else a null-pointer error). Without a `tiles-append` attribute it
   * is left alone. With `tiles-append="name"`, the fragment execution's configuration must exist,
   * and when both carry a `name` child, the target's `name` child gains the fragment's children
   * after its own.
   */
  function MergeExecution(e: Execution, fragment: Execution): (r: Result<Execution, Exception>)
    ensures r.Failure? <==>
      e.configuration.None?
      || (GetAttribute(e.configuration.value, "tiles-append").Some? && fragment.configuration.None?)
    ensures r.Failure? ==> r.error.NullPointer?
    ensures r.Success? ==> r.value.id == e.id && r.value.configuration.Some?
    ensures r.Success? && GetAttribute(e.configuration.value, "tiles-append").None? ==> r.value == e
    ensures r.Success? && GetAttribute(e.configuration.value, "tiles-append").Some? ==>
      var name := GetAttribute(e.configuration.value, "tiles-append").value;
      var c := e.configuration.value;
      var c' := r.value.configuration.value;
      var target := GetChild(c, name);
      var source := GetChild(fragment.configuration.value, name);
      && (target.None? || source.None? ==> r.value == e)
      && (target.Some? && source.Some? ==>
            && c'.name == c.name && c'.value == c.value && c'.attributes == c.attributes
            && |c'.children| == |c.children|
            && (forall k :: 0 <= k < |c.children| && c.children[k] != c'.children[k] ==> Some(c.children[k]) == target)
            && GetChild(c', name).Some?
            && GetChild(c', name).value.children == target.value.children + source.value.children
            && GetChild(c', name).value.attributes == target.value.attributes
            && GetChild(c', name).value.value == target.value.value)
  {
    match e.configuration
    case None => Failure(NullPointer("execution configuration"))
    case Some(c) =>
      match GetAttribute(c, "tiles-append")
      case None => Success(e)
      case Some(name) =>
        var target := GetChild(c, name);
        match fragment.configuration
        case None => Failure(NullPointer("fragment execution configuration"))
        case Some(fc) =>
          var source := GetChild(fc, name);
          if target.None? || source.None? then Success(e)
          else
            var merged := AppendChildren(target.value, source.value);
            Success(e.(configuration := Some(ReplaceChild(c, name, merged))))
  }

  /** What a merge leaves of an execution: its id, and whether it has a configuration. */
  predicate SameExecutionShape(e1: Execution, e2: Execution) {
    e1.id == e2.id && e1.configuration.Some? == e2.configuration.Some?
  }

  function MergeExecutions(p: Plugin, es: seq<Execution>, fragment: Execution, eid: string): (r: Result<seq<Execution>, Exception>)
    ensures r.Failure? <==> exists j :: 0 <= j < |es| && ExecutionId(p, es[j]) == eid && MergeExecution(es[j], fragment).Failure?
    ensures r.Failure? ==> r.error.NullPointer?
    ensures r.Success? ==> |r.value| == |es|
    ensures r.Success? ==> forall j :: 0 <= j < |es| && ExecutionId(p, es[j]) != eid ==> r.value[j] == es[j]
    ensures r.Success? ==> forall j :: 0 <= j < |es| && ExecutionId(p, es[j]) == eid ==> r.value[j] == MergeExecution(es[j], fragment).value
    ensures r.Success? ==> forall j :: 0 <= j < |es| ==> SameExecutionShape(es[j], r.value[j])
    decreases |es|
  {
    MapAll(es, e => MergeIfId(p, e, fragment, eid))
  }

  /** One execution of plugin `p`: merged when its id is `eid`, kept otherwise. */
  function MergeIfId(p: Plugin, e: Execution, fragment: Execution, eid: string): (r: Result<Execution, Exception>)
    ensures ExecutionId(p, e) != eid ==> r == Success(e)
    ensures ExecutionId(p, e) == eid ==> r == MergeExecution(e, fragment)
  {
    if ExecutionId(p, e) == eid then MergeExecution(e, fragment) else Success(e)
  }

  /** Two plugin lists that differ at most in the configuration of executions. */
  predicate SamePluginShape(ps1: seq<Plugin>, ps2: seq<Plugin>) {
    && |ps1| == |ps2|
    && forall i :: 0 <= i < |ps1| ==>
         && ps1[i].(executions := []) == ps2[i].(executions := [])
         && |ps1[i].executions| == |ps2[i].executions|
         && forall j :: 0 <= j < |ps1[i].executions| ==> SameExecutionShape(ps1[i].executions[j], ps2[i].executions[j])
  }

  function MergePlugins(ps: seq<Plugin>, fragment: Execution, eid: string): (r: Result<seq<Plugin>, Exception>)
    ensures r.Failure? <==> exists i :: 0 <= i < |ps| && MergeExecutions(ps[i], ps[i].executions, fragment, eid).Failure?
    ensures r.Failure? ==> r.error.NullPointer?
    ensures r.Success? ==> SamePluginShape(ps, r.value)
    ensures r.Success? ==> forall i :: 0 <= i < |ps| ==>
      r.value[i].executions == MergeExecutions(ps[i], ps[i].executions, fragment, eid).value
    decreases |ps|
  {
    MapAll(ps, p => MergePlugin(p, fragment, eid))
  }

  /** One plugin with its executions merged. */
  function MergePlugin(p: Plugin, fragment: Execution, eid: string): (r: Result<Plugin, Exception>)
    ensures r.Success? <==> MergeExecutions(p, p.executions, fragment, eid).Success?
    ensures r.Failure? ==> r.error.NullPointer?
    ensures r.Success? ==> r.value == p.(executions := MergeExecutions(p, p.executions, fragment, eid).value)
  {
    var es :- MergeExecutions(p, p.executions, fragment, eid);
    Success(p.(executions := es))
  }

  /**
   * `mergeExecutionConfiguration`: every target execution whose id is `eid` goes through
   * `MergeExecution`; every other execution, and everything outside the executions, is kept.
   */
  function MergeExecutionConfiguration(target: Model, fragment: Execution, eid: string): (r: Result<Model, Exception>)
    ensures target.build.None? ==> r.Failure?
    ensures r.Failure? ==> r.error.NullPointer?
    ensures r.Success? ==> r.value.(build := None) == target.(build := None)
    ensures r.Success? ==>
      && r.value.build.Some?
      && r.value.build.value.(plugins := []) == target.build.value.(plugins := [])
      && SamePluginShape(target.build.value.plugins, r.value.build.value.plugins)
    ensures r.Success? ==>
      var ps := target.build.value.plugins;
      var ps' := r.value.build.value.plugins;
      forall i, j :: 0 <= i < |ps| && 0 <= j < |ps[i].executions| ==>
        if ExecutionId(ps[i], ps[i].executions[j]) == eid
        then MergeExecution(ps[i].executions[j], fragment) == Success(ps'[i].executions[j])
        else ps'[i].executions[j] == ps[i].executions[j]
  {
    match target.build
    case None => Failure(NullPointer("build"))
    case Some(b) =>
      var ps :- MergePlugins(b.plugins, fragment, eid);
      Success(target.(build := Some(b.(plugins := ps))))
  }

  /** A fragment execution: the plugin it belongs to and the execution. */
  datatype Site = Site(plugin: Plugin, execution: Execution)

  /** Every execution of a plugin list, plugin by plugin, in declaration order (the `forEach` nesting). */
  function Sites(plugins: seq<Plugin>): (r: seq<Site>)
    ensures forall k :: 0 <= k < |r| ==> r[k].plugin in plugins && r[k].execution in r[k].plugin.executions
  {
    if plugins == [] then []
    else
      var p := plugins[0];
      seq(|p.executions|, j requires 0 <= j < |p.executions| => Site(p, p.executions[j])) + Sites(plugins[1..])
  }

  /** Every execution of every plugin is a site. */
  lemma {:induction false} SitesComplete(plugins: seq<Plugin>, i: nat, j: nat)
    requires i < |plugins| && j < |plugins[i].executions|
    ensures Site(plugins[i], plugins[i].executions[j]) in Sites(plugins)
  {
    var p := plugins[0];
    var here := seq(|p.executions|, j requires 0 <= j < |p.executions| => Site(p, p.executions[j]));
    if i == 0 {
      assert Sites(plugins)[j] == here[j];
    } else {
      SitesComplete(plugins[1..], i - 1, j);
      assert plugins[1..][i - 1] == plugins[i];
    }
  }

  /** The tiles that the executions at `sites` are registered to. */
  function TargetsOf(byExecution: map<string, nat>, sites: seq<Site>): set<nat> {
    if sites == [] then {}
    else
      var eid := ExecutionId(sites[0].plugin, sites[0].execution);
      (if eid in byExecution then {byExecution[eid]} else {}) + TargetsOf(byExecution, sites[1..])
  }

  /** What merging may change in a tile object: only its properties and execution configurations. */
  predicate MergedOnly(before: Tile, after: Tile) {
    && after.tiles == before.tiles && after.tilePom == before.tilePom
    && after.model.(properties := map[], build := None) == before.model.(properties := map[], build := None)
    && before.model.properties.Keys <= after.model.properties.Keys
    && after.model.build.Some? == before.model.build.Some?
    && (before.model.build.Some? ==>
          && after.model.build.value.(plugins := []) == before.model.build.value.(plugins := [])
          && SamePluginShape(before.model.build.value.plugins, after.model.build.value.plugins))
  }

  /**
   * The effect of merging one fragment into the tile objects of `h0`, giving `h1`: the tiles in
   * `targets` gained the fragment's properties (fragment winning) and nothing else but
   * execution configurations; every other tile is untouched; no property appears that neither
   * the tile nor the fragment had.
   */
  predicate Merged(h0: seq<Tile>, h1: seq<Tile>, fragment: Model, targets: set<nat>) {
    && |h1| == |h0|
    && (forall i :: 0 <= i < |h0| && i !in targets ==> h1[i] == h0[i])
    && (forall i :: 0 <= i < |h0| ==> MergedOnly(h0[i], h1[i]))
    && (forall i, k :: 0 <= i < |h0| && k in h1[i].model.properties ==> k in h0[i].model.properties || k in fragment.properties)
    && (forall i, k :: i in targets && 0 <= i < |h0| && k in fragment.properties ==>
          k in h1[i].model.properties && h1[i].model.properties[k] == fragment.properties[k])
  }

  lemma MergedTransitive(h0: seq<Tile>, h1: seq<Tile>, h2: seq<Tile>, fragment: Model, t1: set<nat>, t2: set<nat>)
    requires Merged(h0, h1, fragment, t1) && Merged(h1, h2, fragment, t2)
    ensures Merged(h0, h2, fragment, t1 + t2)
  {
    forall i, k | i in t1 + t2 && 0 <= i < |h0| && k in fragment.properties
      ensures k in h2[i].model.properties && h2[i].model.properties[k] == fragment.properties[k]
    {
      if i !in t2 {
        assert h2[i] == h1[i];
      }
    }
  }

  /** The message id of a fragment: `groupId:artifactId` of its model, "null" for a missing field. */
  function FragmentId(fragment: Model): (r: string)
    ensures r == Join([Show(fragment.groupId), Show(fragment.artifactId)], ':')
  {
    JoinTwo(Show(fragment.groupId), Show(fragment.artifactId));
    Show(fragment.groupId) + ":" + Show(fragment.artifactId)
  }

  /** The id of the execution at a site. */
  function SiteId(site: Site): string {
    ExecutionId(site.plugin, site.execution)
  }

  /** Merging one fragment execution into a target model: the properties, then the execution. */
  function MergeStep(m: Model, fragment: Model, site: Site): Result<Model, Exception> {
    MergeExecutionConfiguration(MergeProperties(m, fragment), site.execution, SiteId(site))
  }

  /**
   * The reference definition of merging a fragment into one target model: a step for each of
   * `sites` in order, stopping at the first failure.
   */
  function MergeModel(m: Model, fragment: Model, sites: seq<Site>): (r: Result<Model, Exception>)
    ensures sites == [] ==> r == Success(m)
    ensures r.Failure? ==> r.error.NullPointer?
    decreases |sites|
  {
    if sites == [] then Success(m)
    else
      var m1 :- MergeStep(m, fragment, sites[0]);
      MergeModel(m1, fragment, sites[1..])
  }

  /** The sites among `sites` whose execution is registered to tile `i`, in order. */
  function SitesFor(byExecution: map<string, nat>, sites: seq<Site>, i: nat): (r: seq<Site>)
    ensures |r| <= |sites|
    ensures forall k :: 0 <= k < |r| ==> r[k] in sites && SiteId(r[k]) in byExecution && byExecution[SiteId(r[k])] == i
    decreases |sites|
  {
    if sites == [] then []
    else
      var here := if SiteId(sites[0]) in byExecution && byExecution[SiteId(sites[0])] == i then [sites[0]] else [];
      here + SitesFor(byExecution, sites[1..], i)
  }

  /** Every site's execution has a registered target. */
  predicate AllRegistered(byExecution: map<string, nat>, sites: seq<Site>) {
    forall k :: 0 <= k < |sites| ==> SiteId(sites[k]) in byExecution
  }

  /**
   * One merge step on the tile objects: tile `ref` takes the fragment's properties and one
   * execution's append merge, every other tile is kept; a missing configuration is a null
   * dereference.
   */
  function MergeInto(h: seq<Tile>, ref: nat, fragment: Model, site: Site): (r: Result<seq<Tile>, Exception>)
    requires ref < |h|
    ensures r.Failure? <==> MergeStep(h[ref].model, fragment, site).Failure?
    ensures r.Failure? ==> r.error.NullPointer?
    ensures r.Success? ==>
      && |r.value| == |h|
      && (forall i :: 0 <= i < |h| && i != ref ==> r.value[i] == h[i])
      && MergeStep(h[ref].model, fragment, site) == Success(r.value[ref].model)
      && r.value[ref].tiles == h[ref].tiles && r.value[ref].tilePom == h[ref].tilePom
    ensures r.Success? ==> Merged(h, r.value, fragment, {ref})
  {
    var merged :- MergeStep(h[ref].model, fragment, site);
    Success(h[ref := h[ref].(model := merged)])
  }

  /** The `mergeTile(fragment, true)` loop over the fragment's executions. */
  function MergeSites(s: State, fragment: Model, sites: seq<Site>): (r: Result<State, Exception>)
    requires Valid(s)
    ensures (exists k :: 0 <= k < |sites| && ExecutionId(sites[k].plugin, sites[k].execution) !in s.byExecution) ==> r.Failure?
    ensures r.Failure? && r.error.MissingMergeTarget? ==>
      && r.error.expectedTarget == (if "tile-merge-expected-target" in fragment.properties
                                    then Some(fragment.properties["tile-merge-expected-target"]) else None)
      && r.error.fragmentId == FragmentId(fragment)
      && r.error.executionId !in s.byExecution
    ensures r.Success? ==> r.value == s.(heap := r.value.heap) && Valid(r.value)
    ensures r.Success? ==> Merged(s.heap, r.value.heap, fragment, TargetsOf(s.byExecution, sites))
    decreases |sites|
  {
    if sites == [] then
      Success(s)
    else
      var eid := ExecutionId(sites[0].plugin, sites[0].execution);
      if eid !in s.byExecution then
        var expected := if "tile-merge-expected-target" in fragment.properties
                        then Some(fragment.properties["tile-merge-expected-target"]) else None;
        Failure(MissingMergeTarget(expected, FragmentId(fragment), eid))
      else
        var ref := s.byExecution[eid];
        var h1 :- MergeInto(s.heap, ref, fragment, sites[0]);
        var rest :- MergeSites(s.(heap := h1), fragment, sites[1..]);
        MergeSitesStep(s.heap, h1, rest.heap, s.byExecution, fragment, sites);
        Success(rest)
  }

  /** The first site's merge followed by the rest's is the merge of all sites. */
  lemma MergeSitesStep(h0: seq<Tile>, h1: seq<Tile>, h2: seq<Tile>, byExecution: map<string, nat>, fragment: Model, sites: seq<Site>)
    requires sites != []
    requires ExecutionId(sites[0].plugin, sites[0].execution) in byExecution
    requires Merged(h0, h1, fragment, {byExecution[ExecutionId(sites[0].plugin, sites[0].execution)]})
    requires Merged(h1, h2, fragment, TargetsOf(byExecution, sites[1..]))
    requires forall k :: 0 <= k < |sites[1..]| ==> ExecutionId(sites[1..][k].plugin, sites[1..][k].execution) in byExecution
    ensures Merged(h0, h2, fragment, TargetsOf(byExecution, sites))
    ensures forall k :: 0 <= k < |sites| ==> ExecutionId(sites[k].plugin, sites[k].execution) in byExecution
  {
    var ref := byExecution[ExecutionId(sites[0].plugin, sites[0].execution)];
    MergedTransitive(h0, h1, h2, fragment, {ref}, TargetsOf(byExecution, sites[1..]));
    assert forall k :: 1 <= k < |sites| ==> sites[k] == sites[1..][k - 1];
  }

  /**
   * The loop over the sites, seen target by target: with every site registered, it succeeds
   * exactly when each tile's own sequence of merge steps does, and then each tile holds the
   * model those steps produce.
   */
  lemma {:induction false} MergeSitesPerTarget(s: State, fragment: Model, sites: seq<Site>)
    requires Valid(s) && AllRegistered(s.byExecution, sites)
    ensures MergeSites(s, fragment, sites).Failure? <==>
      exists i :: 0 <= i < |s.heap| && MergeModel(s.heap[i].model, fragment, SitesFor(s.byExecution, sites, i)).Failure?
    ensures MergeSites(s, fragment, sites).Success? ==> forall i :: 0 <= i < |s.heap| ==>
      MergeModel(s.heap[i].model, fragment, SitesFor(s.byExecution, sites, i)) == Success(MergeSites(s, fragment, sites).value.heap[i].model)
    decreases |sites|
  {
    var b := s.byExecution;
    if sites != [] {
      var ref := b[SiteId(sites[0])];
      var h1 := MergeInto(s.heap, ref, fragment, sites[0]);
      if h1.Failure? {
        MergeSitesHeadFails(s, fragment, sites);
      } else {
        var s1 := s.(heap := h1.value);
        AllRegisteredTail(b, sites);
        MergeSitesPerTarget(s1, fragment, sites[1..]);
        MergeSitesHeadMerges(s, fragment, sites);
      }
    }
  }

  /** When the first step fails, the loop fails, and so does the first site's target's own sequence. */
  lemma MergeSitesHeadFails(s: State, fragment: Model, sites: seq<Site>)
    requires Valid(s) && sites != [] && SiteId(sites[0]) in s.byExecution
    requires MergeInto(s.heap, s.byExecution[SiteId(sites[0])], fragment, sites[0]).Failure?
    ensures MergeSites(s, fragment, sites).Failure?
    ensures MergeModel(s.heap[s.byExecution[SiteId(sites[0])]].model, fragment,
                       SitesFor(s.byExecution, sites, s.byExecution[SiteId(sites[0])])).Failure?
  {
    var b := s.byExecution;
    var ref := b[SiteId(sites[0])];
    SitesForHead(b, sites, ref);
    MergeModelHead(s.heap[ref].model, fragment, sites[0], SitesFor(b, sites[1..], ref));
  }

  /**
   * When the first step succeeds, the loop is the loop over the rest from the stepped tiles,
   * and each tile's own sequence from its old model is its rest sequence from its stepped one.
   */
  lemma MergeSitesHeadMerges(s: State, fragment: Model, sites: seq<Site>)
    requires Valid(s) && sites != [] && SiteId(sites[0]) in s.byExecution
    requires MergeInto(s.heap, s.byExecution[SiteId(sites[0])], fragment, sites[0]).Success?
    ensures
      var s1 := s.(heap := MergeInto(s.heap, s.byExecution[SiteId(sites[0])], fragment, sites[0]).value);
      && Valid(s1)
      && MergeSites(s, fragment, sites) == MergeSites(s1, fragment, sites[1..])
      && forall i :: 0 <= i < |s.heap| ==>
           MergeModel(s.heap[i].model, fragment, SitesFor(s.byExecution, sites, i))
             == MergeModel(s1.heap[i].model, fragment, SitesFor(s.byExecution, sites[1..], i))
  {
    var b := s.byExecution;
    var ref := b[SiteId(sites[0])];
    var s1 := s.(heap := MergeInto(s.heap, ref, fragment, sites[0]).value);
    forall i | 0 <= i < |s.heap|
      ensures MergeModel(s.heap[i].model, fragment, SitesFor(b, sites, i))
           == MergeModel(s1.heap[i].model, fragment, SitesFor(b, sites[1..], i))
    {
      SitesForHead(b, sites, i);
      if i == ref {
        MergeModelHead(s.heap[ref].model, fragment, sites[0], SitesFor(b, sites[1..], ref));
      }
    }
  }

  lemma SitesForHead(byExecution: map<string, nat>, sites: seq<Site>, i: nat)
    requires sites != [] && SiteId(sites[0]) in byExecution
    ensures SitesFor(byExecution, sites, i)
         == if byExecution[SiteId(sites[0])] == i then [sites[0]] + SitesFor(byExecution, sites[1..], i)
            else SitesFor(byExecution, sites[1..], i)
  {
  }

  lemma MergeModelHead(m: Model, fragment: Model, site: Site, rest: seq<Site>)
    ensures MergeModel(m, fragment, [site] + rest)
         == if MergeStep(m, fragment, site).Failure? then Failure(MergeStep(m, fragment, site).error)
            else MergeModel(MergeStep(m, fragment, site).value, fragment, rest)
  {
    assert ([site] + rest)[1..] == rest;
  }

  lemma AllRegisteredTail(byExecution: map<string, nat>, sites: seq<Site>)
    requires sites != [] && AllRegistered(byExecution, sites)
    ensures AllRegistered(byExecution, sites[1..])
  {
    assert forall k :: 0 <= k < |sites[1..]| ==> sites[1..][k] == sites[k + 1];
  }

  /** Every execution id of a plugin list is registered exactly when every one of its sites is. */
  lemma ExecutionIdsRegistered(byExecution: map<string, nat>, plugins: seq<Plugin>)
    ensures ExecutionIds(plugins) <= byExecution.Keys <==> AllRegistered(byExecution, Sites(plugins))
  {
    var sites := Sites(plugins);
    if ExecutionIds(plugins) <= byExecution.Keys {
      forall k | 0 <= k < |sites|
        ensures SiteId(sites[k]) in byExecution
      {
        assert ExecutionId(sites[k].plugin, sites[k].execution) in ExecutionIds(plugins);
      }
    }
  }

  /**
   * `mergeTileIntoTarget` (`mergeTile(fragment, true)`): each execution of the fragment's build
   * must have a registered target; that target takes the fragment's properties and the
   * execution's append merge. A fragment without a build fails on `getBuild()`. Seen per target
   * tile, the result is the target's model with the fragment's executions registered to it
   * merged in, in the fragment's order; the merge fails exactly when a target is missing or one
   * of those step sequences fails.
   */
  function MergeTileIntoTarget(s: State, fragment: Tile): (r: Result<State, Exception>)
    requires Valid(s)
    ensures r.Failure? <==>
      || fragment.model.build.None?
      || !(ExecutionIds(fragment.model.build.value.plugins) <= s.byExecution.Keys)
      || exists i :: 0 <= i < |s.heap| &&
           MergeModel(s.heap[i].model, fragment.model, SitesFor(s.byExecution, Sites(fragment.model.build.value.plugins), i)).Failure?
    ensures r.Failure? && r.error.MissingMergeTarget? ==> r.error.executionId !in s.byExecution
    ensures r.Success? ==> r.value == s.(heap := r.value.heap) && Valid(r.value)
    ensures r.Success? ==> |r.value.heap| == |s.heap| && forall i :: 0 <= i < |s.heap| ==>
      && MergeModel(s.heap[i].model, fragment.model, SitesFor(s.byExecution, Sites(fragment.model.build.value.plugins), i))
           == Success(r.value.heap[i].model)
      && r.value.heap[i].tiles == s.heap[i].tiles && r.value.heap[i].tilePom == s.heap[i].tilePom
    ensures r.Success? ==> Merged(s.heap, r.value.heap, fragment.model, TargetsOf(s.byExecution, Sites(fragment.model.build.value.plugins)))
  {
    match fragment.model.build
    case None => Failure(NullPointer("build"))
    case Some(b) =>
      var sites := Sites(b.plugins);
      ExecutionIdsRegistered(s.byExecution, b.plugins);
      if AllRegistered(s.byExecution, sites) then
        MergeSitesPerTarget(s, fragment.model, sites);
        MergeSites(s, fragment.model, sites)
      else
        MergeSites(s, fragment.model, sites)
  }
}
