/**
 * `TilesProjectBuilder`: after the delegate project builder has built a project, every tile
 * the tiles plugin lists is added to the project's dependencies, unless a dependency with the
 * same group and artifact is already there, so that reactor ordering sees the tiles.
 */
module ProjectBuilder {
  import opened Wrappers
  import opened Exceptions
  import opened JavaStrings
  import opened MavenModel
  import opened ConfigurationHelper
  import opened Xpp3

  /**
   * What `VersionRange.createFromVersionSpec` makes of a version string: an invalid spec, or a
   * range with a recommended version when the spec names a single version. Range parsing
   * itself is Maven's and is a parameter here.
   */
  datatype RangeParse = Invalid | Range(recommended: Option<string>)

  /** `extractTileVersion`: the recommended version when there is one, else the text as given. */
  function ExtractTileVersion(versionRange: string, parse: string -> RangeParse): (r: string)
    ensures parse(versionRange).Range? && parse(versionRange).recommended.Some? ==> r == parse(versionRange).recommended.value
    ensures parse(versionRange).Invalid? ==> r == versionRange
    ensures parse(versionRange).Range? && parse(versionRange).recommended.None? ==> r == versionRange
  {
    match parse(versionRange)
    case Invalid => versionRange
    case Range(recommended) => if recommended.Some? then recommended.value else versionRange
  }

  /** Whether some dependency already has this group and artifact. */
  predicate Declares(deps: seq<Dependency>, groupId: string, artifactId: string) {
    exists d :: d in deps && d.groupId == groupId && d.artifactId == artifactId
  }

  /** A split tile reference has the short or the long form. */
  predicate WellFormed(gav: seq<string>) {
    |gav| == 3 || |gav| == 5
  }

  /**
   * The dependency added for a tile: compile scope; type "xml" and no classifier for
   * `g:a:v`, type and classifier from the reference for `g:a:type:classifier:v`.
   */
  function TileDependency(gav: seq<string>, parse: string -> RangeParse): (r: Dependency)
    requires WellFormed(gav)
    ensures r.groupId == gav[0] && r.artifactId == gav[1] && r.scope == Some("compile")
    ensures |gav| == 3 ==> r.typ == "xml" && r.classifier.None? && r.version == Some(ExtractTileVersion(gav[2], parse))
    ensures |gav| == 5 ==> r.typ == gav[2] && r.classifier == Some(gav[3]) && r.version == Some(ExtractTileVersion(gav[4], parse))
  {
    if |gav| == 3 then Dependency(gav[0], gav[1], Some(ExtractTileVersion(gav[2], parse)), "xml", None, Some("compile"))
    else Dependency(gav[0], gav[1], Some(ExtractTileVersion(gav[4], parse)), gav[2], Some(gav[3]), Some("compile"))
  }

  /** A tile entry the loop can handle: present, and of one of the two forms. */
  predicate Usable(tile: Option<string>) {
    tile.Some? && WellFormed(Split(tile.value, ':'))
  }

  /** A usable tile entry whose group and artifact some dependency already has. */
  predicate DeclaredIn(deps: seq<Dependency>, tile: Option<string>) {
    Usable(tile) && Declares(deps, Split(tile.value, ':')[0], Split(tile.value, ':')[1])
  }

  /**
   * The loop over the listed tiles: each one is split and, when no dependency (including one
   * added for an earlier entry) has its group and artifact, a dependency is appended. An entry
   * with no text fails as a null dereference; a malformed one fails the build.
   */
  function AddTileDependencies(deps: seq<Dependency>, tiles: seq<Option<string>>, parse: string -> RangeParse)
    : (r: Result<seq<Dependency>, Exception>)
    ensures r.Success? <==> forall i :: 0 <= i < |tiles| ==> Usable(tiles[i])
    ensures r.Failure? ==> r.error.NullPointer? || r.error.MalformedCoordinate?
    ensures r.Success? ==> |deps| <= |r.value| && r.value[..|deps|] == deps
    decreases |tiles|
  {
    if tiles == [] then Success(deps)
    else if tiles[0].None? then Failure(NullPointer("tile"))
    else
      var gav := Split(tiles[0].value, ':');
      if !WellFormed(gav) then Failure(MalformedCoordinate(tiles[0].value))
      else
        var next := if Declares(deps, gav[0], gav[1]) then deps else deps + [TileDependency(gav, parse)];
        match AddTileDependencies(next, tiles[1..], parse)
        case Failure(e) =>
          var i :| 0 <= i < |tiles[1..]| && !Usable(tiles[1..][i]);
          assert tiles[i + 1] == tiles[1..][i];
          Failure(e)
        case Success(r) =>
          assert forall i :: 1 <= i < |tiles| ==> tiles[i] == tiles[1..][i - 1];
          assert r[..|deps|] == deps by {
            assert r[..|next|] == next;
            assert r[..|deps|] == next[..|deps|];
          }
          Success(r)
  }

  /** Afterwards every listed tile's group and artifact is declared. */
  lemma {:induction false} AddDeclaresEveryTile(deps: seq<Dependency>, tiles: seq<Option<string>>, parse: string -> RangeParse)
    requires AddTileDependencies(deps, tiles, parse).Success?
    ensures forall i :: 0 <= i < |tiles| ==> DeclaredIn(AddTileDependencies(deps, tiles, parse).value, tiles[i])
    decreases |tiles|
  {
    if tiles != [] {
      var r := AddTileDependencies(deps, tiles, parse).value;
      var gav := Split(tiles[0].value, ':');
      var next := if Declares(deps, gav[0], gav[1]) then deps else deps + [TileDependency(gav, parse)];
      assert Declares(next, gav[0], gav[1]);
      AddDeclaresEveryTile(next, tiles[1..], parse);
      var d :| d in next && d.groupId == gav[0] && d.artifactId == gav[1];
      assert r[..|next|] == next;
      assert d in r;
      assert forall i :: 1 <= i < |tiles| ==> tiles[i] == tiles[1..][i - 1];
    }
  }

  /** Every appended dependency is the one for some listed tile. */
  lemma {:induction false} AddFromTiles(deps: seq<Dependency>, tiles: seq<Option<string>>, parse: string -> RangeParse)
    requires AddTileDependencies(deps, tiles, parse).Success?
    ensures var r := AddTileDependencies(deps, tiles, parse).value;
      forall k :: |deps| <= k < |r| ==>
        exists i :: 0 <= i < |tiles| && r[k] == TileDependency(Split(tiles[i].value, ':'), parse)
    decreases |tiles|
  {
    if tiles != [] {
      var r := AddTileDependencies(deps, tiles, parse).value;
      var gav := Split(tiles[0].value, ':');
      var next := if Declares(deps, gav[0], gav[1]) then deps else deps + [TileDependency(gav, parse)];
      assert r == AddTileDependencies(next, tiles[1..], parse).value;
      AddFromTiles(next, tiles[1..], parse);
      assert r[..|next|] == next;
      forall k | |deps| <= k < |r|
        ensures exists i :: 0 <= i < |tiles| && r[k] == TileDependency(Split(tiles[i].value, ':'), parse)
      {
        if k < |next| {
          assert r[k] == next[k] == TileDependency(gav, parse);
        } else {
          var i :| 0 <= i < |tiles[1..]| && r[k] == TileDependency(Split(tiles[1..][i].value, ':'), parse);
          assert tiles[i + 1] == tiles[1..][i];
        }
      }
    }
  }

  /** An appended dependency's group and artifact were not declared before it. */
  lemma {:induction false} AddOnlyNew(deps: seq<Dependency>, tiles: seq<Option<string>>, parse: string -> RangeParse)
    requires AddTileDependencies(deps, tiles, parse).Success?
    ensures var r := AddTileDependencies(deps, tiles, parse).value;
      forall k :: |deps| <= k < |r| ==> !Declares(r[..k], r[k].groupId, r[k].artifactId)
    decreases |tiles|
  {
    if tiles != [] {
      var r := AddTileDependencies(deps, tiles, parse).value;
      var gav := Split(tiles[0].value, ':');
      var next := if Declares(deps, gav[0], gav[1]) then deps else deps + [TileDependency(gav, parse)];
      assert r == AddTileDependencies(next, tiles[1..], parse).value;
      AddOnlyNew(next, tiles[1..], parse);
      OnlyNewStep(deps, gav, parse, next, r);
    }
  }

  /**
   * One step of `AddOnlyNew`: if everything appended after `next` is new where it stands,
   * so is everything appended after `deps`, `next` being `deps` with at most the new tile.
   */
  lemma OnlyNewStep(deps: seq<Dependency>, gav: seq<string>, parse: string -> RangeParse, next: seq<Dependency>, r: seq<Dependency>)
    requires WellFormed(gav)
    requires next == if Declares(deps, gav[0], gav[1]) then deps else deps + [TileDependency(gav, parse)]
    requires |next| <= |r| && r[..|next|] == next
    requires forall k :: |next| <= k < |r| ==> !Declares(r[..k], r[k].groupId, r[k].artifactId)
    ensures forall k :: |deps| <= k < |r| ==> !Declares(r[..k], r[k].groupId, r[k].artifactId)
  {
    if next != deps {
      assert r[..|deps|] == next[..|deps|] == deps;
      assert r[|deps|] == next[|deps|];
    }
  }

  /** When every listed tile is already declared, the loop adds nothing. */
  lemma {:induction false} AllDeclaredAddsNothing(deps: seq<Dependency>, tiles: seq<Option<string>>, parse: string -> RangeParse)
    requires forall i :: 0 <= i < |tiles| ==> DeclaredIn(deps, tiles[i])
    ensures AddTileDependencies(deps, tiles, parse) == Success(deps)
    decreases |tiles|
  {
    if tiles != [] {
      assert DeclaredIn(deps, tiles[0]);
      assert forall i :: 0 <= i < |tiles[1..]| ==> tiles[1..][i] == tiles[i + 1];
      AllDeclaredAddsNothing(deps, tiles[1..], parse);
    }
  }

  /** The first plugin that is the tiles plugin, configured or not. */
  function FirstTilesPlugin(plugins: seq<Plugin>): (r: Option<Plugin>)
    ensures r.Some? ==> IsTilesPlugin(r.value) && r.value in plugins
    ensures r.None? <==> forall p :: p in plugins ==> !IsTilesPlugin(p)
    ensures r.Some? ==> exists i :: 0 <= i < |plugins| && plugins[i] == r.value && forall j :: 0 <= j < i ==> !IsTilesPlugin(plugins[j])
  {
    if plugins == [] then None
    else if IsTilesPlugin(plugins[0]) then Some(plugins[0])
    else
      var r := FirstTilesPlugin(plugins[1..]);
      assert forall j :: 1 <= j < |plugins| ==> plugins[j] == plugins[1..][j - 1];
      assert forall p :: p in plugins ==> p == plugins[0] || p in plugins[1..];
      if r.Some? then
        var i :| 0 <= i < |plugins[1..]| && plugins[1..][i] == r.value && forall j :: 0 <= j < i ==> !IsTilesPlugin(plugins[1..][j]);
        assert plugins[i + 1] == r.value;
        r
      else r
  }

  /** The build's plugins; `MavenProject.getBuild` creates an empty build when there is none. */
  function BuildPlugins(project: Model): (r: seq<Plugin>)
    ensures project.build.None? ==> r == []
    ensures project.build.Some? ==> r == project.build.value.plugins
  {
    if project.build.Some? then project.build.value.plugins else []
  }

  /**
   * The tile references the project's first tiles plugin lists: the values of the `tiles`
   * children of its configuration, in order; empty without the plugin or its configuration.
   */
  function ListedTiles(project: Model): (r: seq<Option<string>>)
    ensures FirstTilesPlugin(BuildPlugins(project)).None? ==> r == []
    ensures FirstTilesPlugin(BuildPlugins(project)).Some? && FirstTilesPlugin(BuildPlugins(project)).value.configuration.None? ==> r == []
    ensures FirstTilesPlugin(BuildPlugins(project)).Some? && FirstTilesPlugin(BuildPlugins(project)).value.configuration.Some? ==>
      var c := FirstTilesPlugin(BuildPlugins(project)).value.configuration.value;
      |r| == CountNamed(c.children, "tiles") && forall k :: 0 <= k < |r| ==> r[k] == GetChildren(c, "tiles")[k].value
  {
    match FirstTilesPlugin(BuildPlugins(project))
    case None => []
    case Some(plugin) => SafeTiles(plugin.configuration)
  }

  /**
   * `injectTileDependencies` on one built project: only the dependencies change, by the loop
   * above over the first tiles plugin's `tiles` entries; without the plugin nothing changes.
   */
  function InjectTileDependencies(project: Model, parse: string -> RangeParse): (r: Result<Model, Exception>)
    ensures FirstTilesPlugin(BuildPlugins(project)).None? ==> r == Success(project)
    ensures r.Success? <==> forall i :: 0 <= i < |ListedTiles(project)| ==> Usable(ListedTiles(project)[i])
    ensures r.Success? ==> r.value == project.(dependencies := r.value.dependencies)
    ensures r.Success? ==> AddTileDependencies(project.dependencies, ListedTiles(project), parse) == Success(r.value.dependencies)
  {
    var tiles := ListedTiles(project);
    var added := AddTileDependencies(project.dependencies, tiles, parse);
    if added.Failure? then Failure(added.error)
    else Success(project.(dependencies := added.value))
  }

  /** Injecting a second time adds nothing. */
  lemma InjectTileDependenciesIdempotent(project: Model, parse: string -> RangeParse)
    requires InjectTileDependencies(project, parse).Success?
    ensures InjectTileDependencies(InjectTileDependencies(project, parse).value, parse) == InjectTileDependencies(project, parse)
  {
    var once := InjectTileDependencies(project, parse).value;
    assert BuildPlugins(once) == BuildPlugins(project);
    assert ListedTiles(once) == ListedTiles(project);
    if FirstTilesPlugin(BuildPlugins(project)).Some? {
      AddDeclaresEveryTile(project.dependencies, ListedTiles(project), parse);
      AllDeclaredAddsNothing(once.dependencies, ListedTiles(project), parse);
    }
  }

  /** The list overload: every built project in turn, stopping at the first failure. */
  function InjectAll(projects: seq<Model>, parse: string -> RangeParse): (r: Result<seq<Model>, Exception>)
    ensures r.Success? <==> forall i :: 0 <= i < |projects| ==> InjectTileDependencies(projects[i], parse).Success?
    ensures r.Success? ==> |r.value| == |projects|
    ensures r.Success? ==> forall i :: 0 <= i < |projects| ==> r.value[i] == InjectTileDependencies(projects[i], parse).value
  {
    MapAll(projects, p => InjectTileDependencies(p, parse))
  }

}
