/**
 * `TileValidator`: what the attach goal checks of a tile descriptor before it is published.
 * A tile declares no identity, no parent, no extensions, and none of the "build smell"
 * sections unless the build explicitly allows that smell.
 */
module TileValidator {
  import opened Wrappers
  import opened JavaStrings
  import opened Exceptions
  import opened MavenModel
  import opened TileModel

  const SmellDependencyManagement := "dependencymanagement"
  const SmellDependencies := "dependencies"
  const SmellRepositories := "repositories"
  const SmellPluginRepositories := "pluginrepositories"
  const SmellPluginManagement := "pluginmanagement"

  /** The smells a build may allow, in their declared order. */
  const Smells: seq<string> :=
    [SmellDependencies, SmellDependencyManagement, SmellPluginRepositories, SmellPluginManagement, SmellRepositories]

  /** The trimmed, non-empty comma-separated tokens of a `buildSmells` setting. */
  function SmellTokens(buildSmells: string): (r: seq<string>)
    ensures forall k :: 0 <= k < |r| ==> r[k] != "" && ',' !in r[k]
  {
    var pieces := Split(buildSmells, ',');
    NonEmpty(seq(|pieces|, i requires 0 <= i < |pieces| => Trim(pieces[i])))
  }

  function NonEmpty(ts: seq<string>): (r: seq<string>)
    ensures forall k :: 0 <= k < |r| ==> r[k] != "" && r[k] in ts
    ensures forall k :: 0 <= k < |ts| && ts[k] != "" ==> ts[k] in r
  {
    if ts == [] then []
    else if ts[0] == "" then NonEmpty(ts[1..])
    else [ts[0]] + NonEmpty(ts[1..])
  }

  /** The tokens that are not smell names, in order. */
  function Stinky(tokens: seq<string>): (r: seq<string>)
    ensures forall k :: 0 <= k < |r| ==> r[k] in tokens && r[k] !in Smells
    ensures forall k :: 0 <= k < |tokens| && tokens[k] !in Smells ==> tokens[k] in r
  {
    if tokens == [] then []
    else if tokens[0] in Smells then Stinky(tokens[1..])
    else [tokens[0]] + Stinky(tokens[1..])
  }

  /**
   * The smell half of `loadModel`: an absent setting allows nothing; a setting with any token
   * that is not a smell name (compared exactly, no case folding) is rejected with the
   * offending tokens; otherwise the tokens are the allowed smells.
   */
  function ParseSmells(buildSmells: Option<string>): (r: Result<set<string>, Exception>)
    ensures buildSmells.None? ==> r == Success({})
    ensures r.Failure? <==>
      buildSmells.Some? && exists k :: 0 <= k < |SmellTokens(buildSmells.value)| && SmellTokens(buildSmells.value)[k] !in Smells
    ensures r.Failure? ==> r.error == UnknownSmell(Stinky(SmellTokens(buildSmells.value)))
    ensures r.Success? ==> forall s :: s in r.value ==> s in Smells
    ensures r.Success? && buildSmells.Some? ==>
      forall s :: s in r.value <==> s in SmellTokens(buildSmells.value)
  {
    match buildSmells
    case None => Success({})
    case Some(text) =>
      var tokens := SmellTokens(text);
      var stinky := Stinky(tokens);
      if stinky != [] then
        assert stinky[0] in tokens;
        Failure(UnknownSmell(stinky))
      else
        Success(set k | 0 <= k < |tokens| :: tokens[k])
  }

  /** The first plugin whose `extensions` text is present and non-empty ("false" included). */
  function FirstExtensionPlugin(plugins: seq<Plugin>): (r: Option<nat>)
    ensures r.Some? ==> r.value < |plugins| && plugins[r.value].extensions.Some? && plugins[r.value].extensions.value != ""
    ensures r.Some? ==> forall k :: 0 <= k < r.value ==> plugins[k].extensions.None? || plugins[k].extensions.value == ""
    ensures r.None? ==> forall k :: 0 <= k < |plugins| ==> plugins[k].extensions.None? || plugins[k].extensions.value == ""
  {
    if plugins == [] then None
    else if plugins[0].extensions.Some? && plugins[0].extensions.value != "" then Some(0)
    else match FirstExtensionPlugin(plugins[1..])
      case None => None
      case Some(i) => Some(i + 1)
  }

  /**
   * The messages `validateModel` logs, in its order: one per identity field present, one per
   * disallowed smell section, one for build extensions, and one (the loop breaks) for plugins
   * with extensions.
   */
  function Complaints(m: Model, smells: set<string>): seq<string> {
    (if m.groupId.Some? then ["groupId"] else [])
    + (if m.artifactId.Some? then ["artifactId"] else [])
    + (if m.version.Some? then ["version"] else [])
    + (if m.parent.Some? then ["parent"] else [])
    + (if m.repositories != [] && SmellRepositories !in smells then ["repositories"] else [])
    + (if m.pluginRepositories != [] && SmellPluginRepositories !in smells then ["pluginRepositories"] else [])
    + (if m.dependencyManagement.Some? && SmellDependencyManagement !in smells then ["dependencyManagement"] else [])
    + (if m.build.Some? && m.build.value.pluginManagement.Some? && SmellPluginManagement !in smells
       then ["pluginManagement"] else [])
    + (if m.dependencies != [] && SmellDependencies !in smells then ["dependencies"] else [])
    + (if m.build.Some? && m.build.value.extensions != [] then ["extensions"] else [])
    + (if m.build.Some? && FirstExtensionPlugin(m.build.value.plugins).Some? then ["plugin extensions"] else [])
  }

  /** What a valid tile looks like, stated section by section. */
  predicate IsValidTile(m: Model, smells: set<string>)
    ensures IsValidTile(m, smells) <==> Complaints(m, smells) == []
  {
    && m.groupId.None? && m.artifactId.None? && m.version.None? && m.parent.None?
    && (m.repositories == [] || SmellRepositories in smells)
    && (m.pluginRepositories == [] || SmellPluginRepositories in smells)
    && (m.dependencyManagement.None? || SmellDependencyManagement in smells)
    && (m.dependencies == [] || SmellDependencies in smells)
    && (m.build.Some? ==>
        && (m.build.value.pluginManagement.None? || SmellPluginManagement in smells)
        && m.build.value.extensions == []
        && forall k :: 0 <= k < |m.build.value.plugins| ==>
             m.build.value.plugins[k].extensions.None? || m.build.value.plugins[k].extensions.value == "")
  }

  /** `validateModel`: the model itself when nothing was logged, `null` otherwise. */
  function ValidateModel(m: Model, smells: set<string>): (r: Option<Model>)
    ensures r.Some? ==> r.value == m
    ensures r.Some? <==> IsValidTile(m, smells)
  {
    if Complaints(m, smells) == [] then Some(m) else None
  }

  /** Allowing more smells never turns a valid tile invalid. */
  lemma MoreSmellsAcceptMore(m: Model, smells: set<string>, more: set<string>)
    requires smells <= more
    requires ValidateModel(m, smells).Some?
    ensures ValidateModel(m, more).Some?
  {
  }

  /** No smell setting excuses an identity, a parent or an extension. */
  lemma SmellsNeverExcuseIdentity(m: Model)
    requires m.groupId.Some? || m.artifactId.Some? || m.version.Some? || m.parent.Some?
             || (m.build.Some? && m.build.value.extensions != [])
    ensures forall smells :: ValidateModel(m, smells).None?
  {
  }

  /** A tile bound to its artifact carries a group id, so a bound tile never validates. */
  lemma BoundTileNeverValid(t: Tile, a: Artifact, smells: set<string>)
    ensures ValidateModel(Bind(t, a).model, smells).None?
  {
  }

  /** The tile file handed to `loadModel`: none, a path that does not exist, or an existing document. */
  datatype TilePom = NoFile | Missing(path: string) | Present(path: string, document: Node)

  /**
   * `loadModel`: the smell setting is checked first (so a bad setting fails whatever the file);
   * a missing file yields `null`; otherwise the file is stripped and parsed, without binding,
   * and validated.
   */
  function LoadModel(tilePom: TilePom, buildSmells: Option<string>, parse: Node -> Result<Model, Exception>)
    : (r: Result<Option<Model>, Exception>)
    ensures ParseSmells(buildSmells).Failure? ==> r == Failure(ParseSmells(buildSmells).error)
    ensures ParseSmells(buildSmells).Success? && !tilePom.Present? ==> r == Success(None)
    ensures ParseSmells(buildSmells).Success? && tilePom.Present? ==>
      var loaded := LoadTile(tilePom.path, tilePom.document, parse);
      && (loaded.Failure? ==> r == Failure(loaded.error))
      && (loaded.Success? ==> r.Success? && (r.value.Some? <==> IsValidTile(loaded.value.model, ParseSmells(buildSmells).value)))
      && (loaded.Success? && r.value.Some? ==> r.value.value == loaded.value.model)
  {
    var smells :- ParseSmells(buildSmells);
    match tilePom
    case NoFile => Success(None)
    case Missing(_) => Success(None)
    case Present(path, doc) =>
      var loaded :- LoadTile(path, doc, parse);
      Success(ValidateModel(loaded.model, smells))
  }

  /** Example: an upper-case smell name ("Dependencies") is not a smell name. */
  lemma SmellNamesAreCaseSensitive(tilePom: TilePom, parse: Node -> Result<Model, Exception>)
    ensures LoadModel(tilePom, Some("Dependencies"), parse).Failure?
  {
    var token := "Dependencies";
    assert ',' !in token;
    assert Split(token, ',') == [token];
    assert Trim(token) == token;
    assert seq(1, i requires 0 <= i < 1 => Trim([token][i])) == [token];
    assert NonEmpty([token]) == [token];
    assert SmellTokens(token) == [token];
    assert token !in Smells;
  }
}
