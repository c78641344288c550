/**
 * The parts of Maven's project model (`org.apache.maven.model.*`) that the tiles core reads or
 * writes. Reference-typed fields that may be `null` are `Option`s; list-typed fields, which
 * Maven creates empty on demand, are plain sequences.
 */
module MavenModel {
  import opened Wrappers
  import opened Xpp3

  /** An artifact coordinate; `typ` is the artifact type ("xml" for a tile by default). */
  datatype Artifact = Artifact(groupId: string, artifactId: string, typ: string, classifier: string, version: string)

  /** A `<parent>` reference. */
  datatype Parent = Parent(groupId: Option<string>, artifactId: Option<string>, version: Option<string>)

  datatype Execution = Execution(id: string, configuration: Option<Dom>)

  /** A plugin; `extensions` is the raw text of its `<extensions>` element. */
  datatype Plugin = Plugin(
    groupId: string,
    artifactId: string,
    extensions: Option<string>,
    configuration: Option<Dom>,
    executions: seq<Execution>)

  /**
   * A `<build>` (also used for a profile's build). `pluginManagement` is `None` when the
   * section is absent; `extensions` lists the build extensions' coordinates.
   */
  datatype Build = Build(
    sourceDirectory: Option<string>,
    testSourceDirectory: Option<string>,
    plugins: seq<Plugin>,
    pluginManagement: Option<seq<Plugin>>,
    extensions: seq<string>)

  datatype Profile = Profile(id: string, build: Option<Build>)

  datatype Dependency = Dependency(
    groupId: string,
    artifactId: string,
    version: Option<string>,
    typ: string,
    classifier: Option<string>,
    scope: Option<string>)

  datatype Repository = Repository(id: string, url: Option<string>)

  datatype DistributionManagement = DistributionManagement(
    repository: Option<Repository>,
    snapshotRepository: Option<Repository>)

  /**
   * A project descriptor. `descriptive` stands for the remaining sections that the effective-model
   * writeback copies verbatim (licenses, scm, developers, contributors, organization, mailing
   * lists, issue and CI management, prerequisites, reporting), keyed by section name.
   */
  datatype Model = Model(
    modelVersion: Option<string>,
    groupId: Option<string>,
    artifactId: Option<string>,
    version: Option<string>,
    packaging: string,
    parent: Option<Parent>,
    properties: map<string, string>,
    build: Option<Build>,
    profiles: seq<Profile>,
    dependencies: seq<Dependency>,
    dependencyManagement: Option<seq<Dependency>>,
    repositories: seq<Repository>,
    pluginRepositories: seq<Repository>,
    distributionManagement: Option<DistributionManagement>,
    descriptive: map<string, string>)

  /** A model whose identity has been bound to an artifact, as every loaded tile's is. */
  predicate HasIdentity(m: Model) {
    m.groupId.Some? && m.artifactId.Some? && m.version.Some?
  }

  /** The group and artifact of the tiles plugin itself. */
  const TilesPluginGroup := "io.repaint.maven"
  const TilesPluginArtifact := "tiles-maven-plugin"

  predicate IsTilesPlugin(p: Plugin) {
    p.groupId == TilesPluginGroup && p.artifactId == TilesPluginArtifact
  }
}
