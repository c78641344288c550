/**
 * Writing the result of the tiles build back onto the Maven project: `copyModel`, which copies
 * the effective model's sections over the project model, re-points the first (test) source
 * root and carries an m2e lifecycle-mapping plugin over to the original model; and the URL
 * selectors for the release and snapshot distribution repositories.
 */
module Writeback {
  import opened Wrappers
  import opened Exceptions
  import opened MavenModel
  import opened JavaStrings
  import opened GavUtil

  /** The parts of a `MavenProject` that the writeback reads or changes. */
  datatype Project = Project(model: Model, originalModel: Model, compileRoots: seq<string>, testRoots: seq<string>)

  /** The plugin-management key of the Eclipse m2e lifecycle-mapping plugin. */
  const M2eLifecycleMapping := "org.eclipse.m2e:lifecycle-mapping"

  /** `Plugin.getKey`: `group:artifact`, the same text `artifactName` builds. */
  function PluginKey(p: Plugin): (r: string)
    ensures r == Join([p.groupId, p.artifactId], ':')
    ensures forall a: Artifact :: a.groupId == p.groupId && a.artifactId == p.artifactId ==> r == ArtifactName(a)
  {
    GroupArtifact(p.groupId, p.artifactId)
  }

  /** Two plugins share a key exactly when they share group and artifact (groups hold no ':'). */
  lemma PluginKeyIdentity(p1: Plugin, p2: Plugin)
    requires ':' !in p1.groupId && ':' !in p2.groupId
    ensures PluginKey(p1) == PluginKey(p2) <==> p1.groupId == p2.groupId && p1.artifactId == p2.artifactId
  {
    if PluginKey(p1) == PluginKey(p2) {
      PairInjective(p1.groupId, p1.artifactId, p2.groupId, p2.artifactId);
    }
  }

  /**
   * `getPluginsAsMap().get(key)`: the map is filled in list order, so a later plugin with the
   * same key replaces an earlier one.
   */
  function PluginByKey(plugins: seq<Plugin>, key: string): (r: Option<Plugin>)
    ensures r.Some? <==> exists i :: 0 <= i < |plugins| && PluginKey(plugins[i]) == key
    ensures r.Some? ==> exists i :: (0 <= i < |plugins| && plugins[i] == r.value && PluginKey(plugins[i]) == key
      && forall j :: i < j < |plugins| ==> PluginKey(plugins[j]) != key)
  {
    if plugins == [] then None
    else
      var last := plugins[|plugins| - 1];
      if PluginKey(last) == key then Some(last)
      else
        var r := PluginByKey(plugins[..|plugins| - 1], key);
        assert forall i :: 0 <= i < |plugins| - 1 ==> plugins[..|plugins| - 1][i] == plugins[i];
        r
  }

  /**
   * `roots.remove(0); roots.add(0, directory)`: the first root replaced by `directory`; an
   * empty list has no first root to remove.
   */
  function ReplaceFirstRoot(roots: seq<string>, directory: string): (r: Result<seq<string>, Exception>)
    ensures r.Failure? <==> roots == []
    ensures r.Success? ==> |r.value| == |roots| && r.value[0] == directory
    ensures r.Success? ==> forall i :: 0 < i < |roots| ==> r.value[i] == roots[i]
  {
    if roots == [] then Failure(IndexOutOfBounds("source roots"))
    else Success([directory] + roots[1..])
  }

  /** Re-pointing the first root is idempotent. */
  lemma ReplaceFirstRootIdempotent(roots: seq<string>, directory: string)
    requires roots != []
    ensures ReplaceFirstRoot(ReplaceFirstRoot(roots, directory).value, directory) == ReplaceFirstRoot(roots, directory)
  {
    var once := ReplaceFirstRoot(roots, directory).value;
    var twice := ReplaceFirstRoot(once, directory).value;
    assert twice == once;
  }

  /** The first root re-pointed only when the build declares a directory for it. */
  function UpdateRoots(roots: seq<string>, directory: Option<string>): (r: Result<seq<string>, Exception>)
    ensures directory.None? ==> r == Success(roots)
    ensures directory.Some? ==> r == ReplaceFirstRoot(roots, directory.value)
  {
    if directory.Some? then ReplaceFirstRoot(roots, directory.value) else Success(roots)
  }

  /** The sections `copyModel` takes over from the effective model; identity and parent are kept. */
  function CopySections(model: Model, effective: Model): (r: Model)
    ensures r.modelVersion == model.modelVersion && r.groupId == model.groupId && r.artifactId == model.artifactId
    ensures r.version == model.version && r.packaging == model.packaging && r.parent == model.parent
    ensures r.build == effective.build && r.dependencyManagement == effective.dependencyManagement
    ensures r.dependencies == effective.dependencies && r.repositories == effective.repositories
    ensures r.pluginRepositories == effective.pluginRepositories
    ensures r.distributionManagement == effective.distributionManagement
    ensures r.profiles == effective.profiles && r.properties == effective.properties
    ensures r.descriptive == effective.descriptive
  {
    model.(
      build := effective.build,
      dependencyManagement := effective.dependencyManagement,
      dependencies := effective.dependencies,
      repositories := effective.repositories,
      pluginRepositories := effective.pluginRepositories,
      descriptive := effective.descriptive,
      distributionManagement := effective.distributionManagement,
      profiles := effective.profiles,
      properties := effective.properties)
  }

  /** `new Build()`: no directories, no plugins, no plugin management, no extensions. */
  const EmptyBuild := Build(None, None, [], None, [])

  /**
   * The original model after the m2e carve-out: its build (created when absent) gets a plugin
   * management section (a copy of the existing one, or a new empty one) with `plugin` added last.
   */
  function AddManagedPlugin(original: Model, plugin: Plugin): (r: Model)
    ensures r.build.Some? && r.build.value.pluginManagement.Some?
    ensures var before := if original.build.Some? then original.build.value else EmptyBuild;
      && r.build.value == before.(pluginManagement := r.build.value.pluginManagement)
      && r.build.value.pluginManagement.value == before.pluginManagement.GetOr([]) + [plugin]
    ensures r == original.(build := r.build)
  {
    var build := if original.build.Some? then original.build.value else EmptyBuild;
    var managed := if build.pluginManagement.Some? then build.pluginManagement.value else [];
    original.(build := Some(build.(pluginManagement := Some(managed + [plugin]))))
  }

  /**
   * `copyModel`. Fails with a null-pointer error when the effective model has no build or no
   * plugin management, and with an index error when a declared (test) source directory meets
   * an empty root list.
   */
  function CopyModel(project: Project, effective: Model): (r: Result<Project, Exception>)
    ensures r.Failure? <==>
      || effective.build.None?
      || (effective.build.value.sourceDirectory.Some? && project.compileRoots == [])
      || (effective.build.value.testSourceDirectory.Some? && project.testRoots == [])
      || effective.build.value.pluginManagement.None?
    ensures r.Failure? && effective.build.None? ==> r.error.NullPointer?
    ensures r.Success? ==> r.value.model == CopySections(project.model, effective)
    ensures r.Success? ==> UpdateRoots(project.compileRoots, effective.build.value.sourceDirectory) == Success(r.value.compileRoots)
    ensures r.Success? ==> UpdateRoots(project.testRoots, effective.build.value.testSourceDirectory) == Success(r.value.testRoots)
    ensures r.Success? ==>
      var m2e := PluginByKey(effective.build.value.pluginManagement.value, M2eLifecycleMapping);
      && (m2e.None? ==> r.value.originalModel == project.originalModel)
      && (m2e.Some? ==> r.value.originalModel == AddManagedPlugin(project.originalModel, m2e.value))
  {
    var model := CopySections(project.model, effective);
    if model.build.None? then Failure(NullPointer("build"))
    else
      var build := model.build.value;
      var compileRoots :- UpdateRoots(project.compileRoots, build.sourceDirectory);
      var testRoots :- UpdateRoots(project.testRoots, build.testSourceDirectory);
      if build.pluginManagement.None? then Failure(NullPointer("pluginManagement"))
      else
        var original :=
          match PluginByKey(build.pluginManagement.value, M2eLifecycleMapping)
          case None => project.originalModel
          case Some(m2e) => AddManagedPlugin(project.originalModel, m2e);
        Success(Project(model, original, compileRoots, testRoots))
  }

  /**
   * Copying the same effective model again changes nothing further on the project model and
   * its roots; only the m2e carve-out adds its plugin once more.
   */
  lemma CopyModelStable(project: Project, effective: Model)
    requires CopyModel(project, effective).Success?
    ensures var once := CopyModel(project, effective).value;
      && CopyModel(once, effective).Success?
      && CopyModel(once, effective).value.model == once.model
      && CopyModel(once, effective).value.compileRoots == once.compileRoots
      && CopyModel(once, effective).value.testRoots == once.testRoots
  {
    var once := CopyModel(project, effective).value;
    var build := effective.build.value;
    if build.sourceDirectory.Some? {
      ReplaceFirstRootIdempotent(project.compileRoots, build.sourceDirectory.value);
    }
    if build.testSourceDirectory.Some? {
      ReplaceFirstRootIdempotent(project.testRoots, build.testSourceDirectory.value);
    }
  }

  /** The priority of `alt…DeploymentRepository` properties over the repository's own URL. */
  function DeploymentUrl(properties: map<string, string>, specific: string, repository: Option<Repository>)
    : (r: Result<Option<string>, Exception>)
    ensures r.Failure? <==> repository.None?
    ensures r.Success? && specific in properties ==> r.value == Some(properties[specific])
    ensures r.Success? && specific !in properties && "altDeploymentRepository" in properties ==>
      r.value == Some(properties["altDeploymentRepository"])
    ensures r.Success? && specific !in properties && "altDeploymentRepository" !in properties ==>
      r.value == repository.value.url
  {
    if repository.None? then Failure(NullPointer("distribution repository"))
    else if specific in properties then Success(Some(properties[specific]))
    else if "altDeploymentRepository" in properties then Success(Some(properties["altDeploymentRepository"]))
    else Success(repository.value.url)
  }

  /** The distribution section's release repository, `null` without the section. */
  function ReleaseRepository(dm: Option<DistributionManagement>): Option<Repository> {
    if dm.Some? then dm.value.repository else None
  }

  /** The distribution section's snapshot repository, `null` without the section. */
  function SnapshotRepository(dm: Option<DistributionManagement>): Option<Repository> {
    if dm.Some? then dm.value.snapshotRepository else None
  }

  /**
   * `getReleaseDistributionManagementRepositoryUrl`: `altReleaseDeploymentRepository`, else
   * `altDeploymentRepository`, else the release repository's URL (which may be `null`).
   */
  function ReleaseUrl(properties: map<string, string>, dm: Option<DistributionManagement>): (r: Result<Option<string>, Exception>)
    ensures r.Failure? <==> dm.None? || dm.value.repository.None?
    ensures r.Success? ==> r.value.None? ==>
      "altReleaseDeploymentRepository" !in properties && "altDeploymentRepository" !in properties
      && dm.value.repository.value.url.None?
    ensures r.Success? && "altReleaseDeploymentRepository" in properties ==> r.value == Some(properties["altReleaseDeploymentRepository"])
    ensures r.Success? && "altReleaseDeploymentRepository" !in properties && "altDeploymentRepository" in properties ==>
      r.value == Some(properties["altDeploymentRepository"])
    ensures r.Success? && "altReleaseDeploymentRepository" !in properties && "altDeploymentRepository" !in properties ==>
      r.value == dm.value.repository.value.url
  {
    DeploymentUrl(properties, "altReleaseDeploymentRepository", ReleaseRepository(dm))
  }

  /**
   * `getSnapshotDistributionManagementRepositoryUrl`: `altSnapshotDeploymentRepository`, else
   * `altDeploymentRepository`, else the snapshot repository's URL (which may be `null`).
   */
  function SnapshotUrl(properties: map<string, string>, dm: Option<DistributionManagement>): (r: Result<Option<string>, Exception>)
    ensures r.Failure? <==> dm.None? || dm.value.snapshotRepository.None?
    ensures r.Success? ==> r.value.None? ==>
      "altSnapshotDeploymentRepository" !in properties && "altDeploymentRepository" !in properties
      && dm.value.snapshotRepository.value.url.None?
    ensures r.Success? && "altSnapshotDeploymentRepository" in properties ==> r.value == Some(properties["altSnapshotDeploymentRepository"])
    ensures r.Success? && "altSnapshotDeploymentRepository" !in properties && "altDeploymentRepository" in properties ==>
      r.value == Some(properties["altDeploymentRepository"])
    ensures r.Success? && "altSnapshotDeploymentRepository" !in properties && "altDeploymentRepository" !in properties ==>
      r.value == dm.value.snapshotRepository.value.url
  {
    DeploymentUrl(properties, "altSnapshotDeploymentRepository", SnapshotRepository(dm))
  }

  /**
   * `altDeploymentRepository` alone redirects both kinds of deployment to the same place,
   * whatever the two repositories declare.
   */
  lemma SharedAltUrl(properties: map<string, string>, dm: DistributionManagement)
    requires dm.repository.Some? && dm.snapshotRepository.Some?
    requires "altReleaseDeploymentRepository" !in properties && "altSnapshotDeploymentRepository" !in properties
    requires "altDeploymentRepository" in properties
    ensures ReleaseUrl(properties, Some(dm)) == SnapshotUrl(properties, Some(dm)) == Success(Some(properties["altDeploymentRepository"]))
  {
  }

  /** Without any `alt…` property each kind deploys to its own repository's URL. */
  lemma OwnUrlsWithoutOverrides(properties: map<string, string>, dm: DistributionManagement)
    requires dm.repository.Some? && dm.snapshotRepository.Some?
    requires "altReleaseDeploymentRepository" !in properties && "altSnapshotDeploymentRepository" !in properties
    requires "altDeploymentRepository" !in properties
    ensures ReleaseUrl(properties, Some(dm)) == Success(dm.repository.value.url)
    ensures SnapshotUrl(properties, Some(dm)) == Success(dm.snapshotRepository.value.url)
  {
  }
}
