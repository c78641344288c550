/**
 * `TileModel`: reading a tile descriptor. The raw XML document is stripped of its tile
 * references (`strippedPom`), the rest is parsed into a model by a parser outside the model,
 * and the model is bound to the artifact it was resolved as (the constructor).
 */
module TileModel {
  import opened Wrappers
  import opened JavaStrings
  import opened Exceptions
  import opened Xpp3
  import opened ConfigurationHelper
  import opened MavenModel
  import opened GavUtil

  /** An XML node as XOM sees it: text, or an element with a namespace URI, a local name and children. */
  datatype Node = Text(text: string) | Element(ns: string, name: string, children: seq<Node>)

  const PomNamespace := "http://maven.apache.org/POM/4.0.0"

  /** A loaded tile: its model, the tile references found in its document, and its file. */
  datatype Tile = Tile(model: Model, tiles: seq<string>, tilePom: string)

  function Concat(ss: seq<string>): string {
    if ss == [] then "" else ss[0] + Concat(ss[1..])
  }

  function ConcatNodes(ss: seq<seq<Node>>): seq<Node> {
    if ss == [] then [] else ss[0] + ConcatNodes(ss[1..])
  }

  /** XOM's `getValue()`: the text of every descendant text node, in document order. */
  function StringValue(n: Node): string {
    match n
    case Text(t) => t
    case Element(_, _, cs) => Concat(seq(|cs|, i requires 0 <= i < |cs| => StringValue(cs[i])))
  }

  /** The XPath `//ns:name` over the subtree of `n`: matching elements in document order. */
  function Select(n: Node, ns: string, name: string): seq<Node> {
    match n
    case Text(_) => []
    case Element(ens, ename, cs) =>
      var here := if ens == ns && ename == name then [n] else [];
      here + ConcatNodes(seq(|cs|, i requires 0 <= i < |cs| => Select(cs[i], ns, name)))
  }

  function Values(ns: seq<Node>): (r: seq<string>)
    ensures |r| == |ns|
    ensures forall k :: 0 <= k < |ns| ==> r[k] == StringValue(ns[k])
  {
    seq(|ns|, k requires 0 <= k < |ns| => StringValue(ns[k]))
  }

  /** A `tiles` element in the POM namespace or in no namespace: what `strippedPom` removes. */
  predicate IsTilesElement(n: Node) {
    n.Element? && n.name == "tiles" && (n.ns == PomNamespace || n.ns == "")
  }

  function KeepNonTiles(cs: seq<Node>): (r: seq<Node>)
    ensures forall k :: 0 <= k < |r| ==> !IsTilesElement(r[k]) && r[k] in cs
    ensures (forall k :: 0 <= k < |cs| ==> !IsTilesElement(cs[k])) ==> r == cs
  {
    if cs == [] then []
    else if IsTilesElement(cs[0]) then KeepNonTiles(cs[1..])
    else
      var rest := KeepNonTiles(cs[1..]);
      assert cs == [cs[0]] + cs[1..];
      [cs[0]] + rest
  }

  /** Every `tiles` element strictly below `n` detached from its parent. */
  function RemoveTiles(n: Node): (r: Node)
    ensures r.Text? <==> n.Text?
    ensures r.Element? ==> r.ns == n.ns && r.name == n.name
  {
    match n
    case Text(_) => n
    case Element(ns, name, cs) =>
      Element(ns, name, KeepNonTiles(seq(|cs|, i requires 0 <= i < |cs| => RemoveTiles(cs[i]))))
  }

  /** No `tiles` element anywhere in the subtree of `n`, `n` included. */
  predicate TilesFree(n: Node) {
    match n
    case Text(_) => true
    case Element(_, _, cs) => !IsTilesElement(n) && forall i :: 0 <= i < |cs| ==> TilesFree(cs[i])
  }

  /** After removal no `tiles` element is left below a root that is not itself one. */
  lemma {:induction false} RemoveTilesLeavesNone(n: Node)
    requires !IsTilesElement(n)
    ensures TilesFree(RemoveTiles(n))
  {
    match n
    case Text(_) =>
    case Element(ns, name, cs) =>
      var mapped := seq(|cs|, i requires 0 <= i < |cs| => RemoveTiles(cs[i]));
      var kept := KeepNonTiles(mapped);
      forall k | 0 <= k < |kept|
        ensures TilesFree(kept[k])
      {
        var i :| 0 <= i < |mapped| && mapped[i] == kept[k];
        assert !IsTilesElement(cs[i]);
        RemoveTilesLeavesNone(cs[i]);
      }
  }

  /** A document without `tiles` elements is left exactly as it was. */
  lemma {:induction false} RemoveTilesKeepsTilesFree(n: Node)
    requires TilesFree(n)
    ensures RemoveTiles(n) == n
  {
    match n
    case Text(_) =>
    case Element(ns, name, cs) =>
      var mapped := seq(|cs|, i requires 0 <= i < |cs| => RemoveTiles(cs[i]));
      forall i | 0 <= i < |cs|
        ensures mapped[i] == cs[i]
      {
        RemoveTilesKeepsTilesFree(cs[i]);
      }
      assert mapped == cs;
  }

  /** Stripping twice strips nothing more. */
  lemma RemoveTilesIdempotent(n: Node)
    requires !IsTilesElement(n)
    ensures RemoveTiles(RemoveTiles(n)) == RemoveTiles(n)
  {
    RemoveTilesLeavesNone(n);
    RemoveTilesKeepsTilesFree(RemoveTiles(n));
  }

  lemma RemoveTilesFacts(n: Node)
    requires !IsTilesElement(n)
    ensures TilesFree(RemoveTiles(n))
    ensures TilesFree(n) ==> RemoveTiles(n) == n
  {
    RemoveTilesLeavesNone(n);
    if TilesFree(n) {
      RemoveTilesKeepsTilesFree(n);
    }
  }

  /** The result of `strippedPom`: the document without tile references, and the references. */
  datatype Stripped = Stripped(document: Node, tiles: seq<string>)

  /**
   * `strippedPom`: the text of every `tile` element in the POM namespace, then of every `tile`
   * element in no namespace, is collected (before anything is removed, so tiles inside a
   * `tiles` element count); then every `tiles` element is detached. XOM cannot detach the root.
   */
  function StrippedPom(doc: Node): (r: Result<Stripped, Exception>)
    ensures r.Failure? <==> IsTilesElement(doc)
    ensures r.Success? ==> TilesFree(r.value.document)
    ensures r.Success? ==>
      var nsTiles := Select(doc, PomNamespace, "tile");
      var plainTiles := Select(doc, "", "tile");
      && |r.value.tiles| == |nsTiles| + |plainTiles|
      && (forall k :: 0 <= k < |nsTiles| ==> r.value.tiles[k] == StringValue(nsTiles[k]))
      && (forall k :: 0 <= k < |plainTiles| ==> r.value.tiles[|nsTiles| + k] == StringValue(plainTiles[k]))
    ensures r.Success? && TilesFree(doc) ==> r.value.document == doc
  {
    var ns, plain := Values(Select(doc, PomNamespace, "tile")), Values(Select(doc, "", "tile"));
    var tiles := ns + plain;
    assert forall k :: 0 <= k < |plain| ==> tiles[|ns| + k] == plain[k];
    if IsTilesElement(doc) then Failure(CannotRemoveRoot)
    else
      RemoveTilesFacts(doc);
      Success(Stripped(RemoveTiles(doc), tiles))
  }

  /** Example: a tile nested inside a `tiles` element is collected although the element is removed. */
  lemma NestedTileCollected()
    ensures
      var tile := Element(PomNamespace, "tile", [Text("g:a:1")]);
      var doc := Element(PomNamespace, "project", [Element(PomNamespace, "tiles", [tile])]);
      StrippedPom(doc) == Success(Stripped(Element(PomNamespace, "project", []), ["g:a:1"]))
  {
    var tile := Element(PomNamespace, "tile", [Text("g:a:1")]);
    var tilesEl := Element(PomNamespace, "tiles", [tile]);
    var doc := Element(PomNamespace, "project", [tilesEl]);
    SelectOnlyChild(PomNamespace, "tile", [Text("g:a:1")], PomNamespace, "tile");
    SelectOnlyChild(PomNamespace, "tiles", [tile], PomNamespace, "tile");
    SelectOnlyChild(PomNamespace, "project", [tilesEl], PomNamespace, "tile");
    SelectOnlyChild(PomNamespace, "tile", [Text("g:a:1")], "", "tile");
    SelectOnlyChild(PomNamespace, "tiles", [tile], "", "tile");
    SelectOnlyChild(PomNamespace, "project", [tilesEl], "", "tile");
    OnlyChild(PomNamespace, "tile", [Text("g:a:1")]);
    OnlyChild(PomNamespace, "project", [tilesEl]);
    assert Concat(["g:a:1"]) == "g:a:1";
    assert KeepNonTiles([RemoveTiles(tilesEl)]) == [];
    assert Values([tile]) == ["g:a:1"];
    assert Select(doc, PomNamespace, "tile") == [tile];
    assert Select(doc, "", "tile") == [];
    assert Values([]) == [];
    assert RemoveTiles(doc) == Element(PomNamespace, "project", []);
    assert !IsTilesElement(doc);
    assert Values([tile]) + Values([]) == ["g:a:1"];
    assert StrippedPom(doc).Success?;
    assert StrippedPom(doc).value.tiles == ["g:a:1"];
    assert StrippedPom(doc).value.document == Element(PomNamespace, "project", []);
  }

  lemma OnlyChild(ens: string, ename: string, cs: seq<Node>)
    requires |cs| == 1
    ensures StringValue(Element(ens, ename, cs)) == Concat([StringValue(cs[0])])
    ensures RemoveTiles(Element(ens, ename, cs)) == Element(ens, ename, KeepNonTiles([RemoveTiles(cs[0])]))
  {
    assert seq(|cs|, i requires 0 <= i < |cs| => StringValue(cs[i])) == [StringValue(cs[0])];
    assert seq(|cs|, i requires 0 <= i < |cs| => RemoveTiles(cs[i])) == [RemoveTiles(cs[0])];
  }

  lemma SelectOnlyChild(ens: string, ename: string, cs: seq<Node>, ns: string, name: string)
    requires |cs| == 1
    ensures Select(Element(ens, ename, cs), ns, name)
         == (if ens == ns && ename == name then [Element(ens, ename, cs)] else []) + Select(cs[0], ns, name)
  {
    var below := seq(|cs|, i requires 0 <= i < |cs| => Select(cs[i], ns, name));
    assert below == [Select(cs[0], ns, name)];
    assert ConcatNodes(below) == Select(cs[0], ns, name) + ConcatNodes([]);
  }

  /** `loadTile`: strip the document, then parse what is left with the (external) model reader. */
  function LoadTile(tilePom: string, doc: Node, parse: Node -> Result<Model, Exception>): (r: Result<Tile, Exception>)
    ensures r.Success? ==> StrippedPom(doc).Success? && r.value.tiles == StrippedPom(doc).value.tiles
    ensures r.Success? ==> r.value.tilePom == tilePom && parse(StrippedPom(doc).value.document) == Success(r.value.model)
    ensures IsTilesElement(doc) ==> r.Failure?
  {
    var stripped :- StrippedPom(doc);
    var model :- parse(stripped.document);
    Success(Tile(model, stripped.tiles, tilePom))
  }

  /** The value `ExecutionIdPrefix(a) + id` that a rewritten execution id gets: `g_a_v__`. */
  function ExecutionIdPrefix(a: Artifact): (r: string)
    ensures ':' !in r
    ensures |r| == |ArtifactGav(a)| + 2
    ensures forall i :: 0 <= i < |ArtifactGav(a)| ==> r[i] == (if ArtifactGav(a)[i] == ':' then '_' else ArtifactGav(a)[i])
    ensures r[|ArtifactGav(a)|..] == "__"
  {
    ReplaceChar(ArtifactGav(a), ':', '_') + "__"
  }

  /**
   * An execution opts out of the id rewrite when its configuration has the attribute
   * `tiles-keep-id="true"`, or exactly one `tiles-keep-id` child whose value is "true".
   */
  predicate KeepsId(e: Execution)
    ensures KeepsId(e) <==>
      e.configuration.Some?
      && (GetAttribute(e.configuration.value, "tiles-keep-id") == Some("true")
          || SafeConfig(e.configuration, "tiles-keep-id", Some("false")) == Some("true"))
  {
    && e.configuration.Some?
    && var c := e.configuration.value;
       || GetAttribute(c, "tiles-keep-id") == Some("true")
       || (CountNamed(c.children, "tiles-keep-id") == 1
           && exists k :: 0 <= k < |c.children| && c.children[k].name == "tiles-keep-id" && c.children[k].value == Some("true"))
  }

  /** The per-execution step of `rewritePluginExecutionIds`. */
  function RewriteExecution(e: Execution, a: Artifact): (r: Execution)
    ensures r.configuration == e.configuration
    ensures r.id == e.id <==> KeepsId(e)
    ensures !KeepsId(e) ==> r.id == ExecutionIdPrefix(a) + e.id
  {
    match e.configuration
    case None => e.(id := ExecutionIdPrefix(a) + e.id)
    case Some(c) =>
      var keepTile := SafeConfig(Some(c), "tiles-keep-id", Some("false"));
      var keepAttribute := GetAttribute(c, "tiles-keep-id");
      if keepAttribute == Some("true") || keepTile == Some("true") then e
      else
        assert |ExecutionIdPrefix(a) + e.id| > |e.id|;
        e.(id := ExecutionIdPrefix(a) + e.id)
  }

  /** Rewritten ids of one artifact's executions collide only when the original ids did. */
  lemma RewriteInjective(e1: Execution, e2: Execution, a: Artifact)
    requires !KeepsId(e1) && !KeepsId(e2)
    requires RewriteExecution(e1, a).id == RewriteExecution(e2, a).id
    ensures e1.id == e2.id
  {
    var p := ExecutionIdPrefix(a);
    assert e1.id == (p + e1.id)[|p|..];
  }

  /** An execution without configuration cannot opt out, so its id is always rewritten. */
  lemma UnconfiguredAlwaysRewritten(e: Execution, a: Artifact)
    requires e.configuration.None?
    ensures RewriteExecution(e, a).id == ExecutionIdPrefix(a) + e.id
  {
  }

  /** Two plugins that differ at most in their execution ids. */
  predicate SameButExecutionIds(p1: Plugin, p2: Plugin) {
    && p1.(executions := []) == p2.(executions := [])
    && |p1.executions| == |p2.executions|
    && forall j :: 0 <= j < |p1.executions| ==> p1.executions[j].configuration == p2.executions[j].configuration
  }

  /** `rewritePluginExecutionIds`: every execution of every plugin, in place. */
  function RewritePluginExecutionIds(plugins: seq<Plugin>, a: Artifact): (r: seq<Plugin>)
    ensures |r| == |plugins|
    ensures forall i :: 0 <= i < |r| ==> SameButExecutionIds(plugins[i], r[i])
    ensures forall i :: 0 <= i < |r| ==> |r[i].executions| == |plugins[i].executions|
    ensures forall i, j :: 0 <= i < |r| && 0 <= j < |r[i].executions| ==>
      r[i].executions[j] == RewriteExecution(plugins[i].executions[j], a)
  {
    seq(|plugins|, i requires 0 <= i < |plugins| =>
      var ex := plugins[i].executions;
      plugins[i].(executions := seq(|ex|, j requires 0 <= j < |ex| => RewriteExecution(ex[j], a))))
  }

  function RewriteBuild(b: Option<Build>, a: Artifact): (r: Option<Build>)
    ensures r.Some? <==> b.Some?
    ensures b.Some? ==> r.value == b.value.(plugins := RewritePluginExecutionIds(b.value.plugins, a))
  {
    match b
    case None => None
    case Some(build) => Some(build.(plugins := RewritePluginExecutionIds(build.plugins, a)))
  }

  /** Two builds that differ at most in their plugins' execution ids. */
  predicate BuildSameButExecutionIds(b1: Option<Build>, b2: Option<Build>) {
    && b1.Some? == b2.Some?
    && (b1.Some? ==>
        && b1.value.(plugins := []) == b2.value.(plugins := [])
        && |b1.value.plugins| == |b2.value.plugins|
        && forall i :: 0 <= i < |b1.value.plugins| ==> SameButExecutionIds(b1.value.plugins[i], b2.value.plugins[i]))
  }

  /**
   * The constructor `TileModel(file, artifact)`: the loaded model takes the artifact's group,
   * artifact and version, packaging "pom" and model version "4.0.0", and every execution of the
   * build and of each profile's build goes through the id rewrite.
   */
  function Bind(t: Tile, a: Artifact): (r: Tile)
    ensures r.model.groupId == Some(a.groupId) && r.model.artifactId == Some(a.artifactId)
    ensures r.model.version == Some(a.version)
    ensures r.model.packaging == "pom" && r.model.modelVersion == Some("4.0.0")
    ensures r.tiles == t.tiles && r.tilePom == t.tilePom
    ensures BuildSameButExecutionIds(t.model.build, r.model.build)
    ensures r.model.build.Some? ==> r.model.build.value.plugins == RewritePluginExecutionIds(t.model.build.value.plugins, a)
    ensures |r.model.profiles| == |t.model.profiles|
    ensures forall k :: 0 <= k < |r.model.profiles| ==>
      r.model.profiles[k].id == t.model.profiles[k].id
      && BuildSameButExecutionIds(t.model.profiles[k].build, r.model.profiles[k].build)
    ensures forall k :: 0 <= k < |r.model.profiles| && r.model.profiles[k].build.Some? && t.model.profiles[k].build.Some? ==>
      r.model.profiles[k].build.value.plugins == RewritePluginExecutionIds(t.model.profiles[k].build.value.plugins, a)
    ensures r.model.(modelVersion := None, groupId := None, artifactId := None, version := None, packaging := "",
                     build := None, profiles := [])
         == t.model.(modelVersion := None, groupId := None, artifactId := None, version := None, packaging := "",
                     build := None, profiles := [])
  {
    var m := t.model;
    var profiles := seq(|m.profiles|, k requires 0 <= k < |m.profiles| =>
      m.profiles[k].(build := RewriteBuild(m.profiles[k].build, a)));
    var bound := m.(modelVersion := Some("4.0.0"), version := Some(a.version), groupId := Some(a.groupId),
                    artifactId := Some(a.artifactId), packaging := "pom",
                    build := RewriteBuild(m.build, a), profiles := profiles);
    t.(model := bound)
  }

  /**
   * The inverse of the id rewrite: an execution that keeps its id is left alone, any other loses
   * the artifact's prefix. Whether an execution keeps its id depends on its configuration only,
   * which the rewrite does not touch.
   */
  function RestoreExecution(e: Execution, a: Artifact): (r: Execution)
    ensures r.configuration == e.configuration
  {
    var p := ExecutionIdPrefix(a);
    if KeepsId(e) || |e.id| < |p| then e else e.(id := e.id[|p|..])
  }

  function RestorePluginExecutionIds(plugins: seq<Plugin>, a: Artifact): (r: seq<Plugin>)
    ensures |r| == |plugins|
    ensures forall i :: 0 <= i < |r| ==> r[i].(executions := []) == plugins[i].(executions := [])
    ensures forall i :: 0 <= i < |r| ==> |r[i].executions| == |plugins[i].executions|
    ensures forall i, j :: 0 <= i < |r| && 0 <= j < |r[i].executions| ==>
      r[i].executions[j] == RestoreExecution(plugins[i].executions[j], a)
  {
    seq(|plugins|, i requires 0 <= i < |plugins| =>
      var ex := plugins[i].executions;
      plugins[i].(executions := seq(|ex|, j requires 0 <= j < |ex| => RestoreExecution(ex[j], a))))
  }

  /** Restoring undoes the rewrite of one execution: no original id is lost. */
  lemma RestoreRewrite(e: Execution, a: Artifact)
    ensures RestoreExecution(RewriteExecution(e, a), a) == e
  {
    var p := ExecutionIdPrefix(a);
    if !KeepsId(e) {
      assert (p + e.id)[|p|..] == e.id;
    }
  }

  /** Restoring undoes the rewrite of a whole plugin list. */
  lemma RestoreRewritePlugins(plugins: seq<Plugin>, a: Artifact)
    ensures RestorePluginExecutionIds(RewritePluginExecutionIds(plugins, a), a) == plugins
  {
    var r := RestorePluginExecutionIds(RewritePluginExecutionIds(plugins, a), a);
    forall i | 0 <= i < |plugins|
      ensures r[i] == plugins[i]
    {
      forall j | 0 <= j < |plugins[i].executions|
        ensures r[i].executions[j] == plugins[i].executions[j]
      {
        RestoreRewrite(plugins[i].executions[j], a);
      }
    }
  }

  /**
   * `new TileModel(file, artifact)` over a document: load, then bind. The tile's identity is the
   * artifact's, its packaging "pom" and its model version "4.0.0", its references are those found
   * in the document, the executions of the build and of every profile's build carry ids rewritten
   * for the artifact, and every other part of the model is the one the reader produced.
   */
  function NewTile(tilePom: string, doc: Node, parse: Node -> Result<Model, Exception>, a: Artifact): (r: Result<Tile, Exception>)
    ensures r.Success? <==> StrippedPom(doc).Success? && parse(StrippedPom(doc).value.document).Success?
    ensures r.Success? ==>
      && r.value.model.groupId == Some(a.groupId) && r.value.model.artifactId == Some(a.artifactId)
      && r.value.model.version == Some(a.version) && r.value.model.packaging == "pom"
    ensures r.Success? ==> r.value.tiles == StrippedPom(doc).value.tiles && r.value.tilePom == tilePom
    ensures r.Success? ==>
      var parsed := parse(StrippedPom(doc).value.document).value;
      && r.value.model.build.Some? == parsed.build.Some?
      && (parsed.build.Some? ==> r.value.model.build.value.plugins == RewritePluginExecutionIds(parsed.build.value.plugins, a))
    ensures r.Success? ==> r.value.model.modelVersion == Some("4.0.0")
    ensures r.Success? ==>
      var parsed := parse(StrippedPom(doc).value.document).value;
      && |r.value.model.profiles| == |parsed.profiles|
      && forall k :: 0 <= k < |parsed.profiles| ==>
        && r.value.model.profiles[k].id == parsed.profiles[k].id
        && r.value.model.profiles[k].build.Some? == parsed.profiles[k].build.Some?
        && (parsed.profiles[k].build.Some? ==>
              r.value.model.profiles[k].build.value.plugins == RewritePluginExecutionIds(parsed.profiles[k].build.value.plugins, a))
    ensures r.Success? ==>
      var parsed := parse(StrippedPom(doc).value.document).value;
      r.value.model.(modelVersion := None, groupId := None, artifactId := None, version := None, packaging := "",
                     build := None, profiles := [])
      == parsed.(modelVersion := None, groupId := None, artifactId := None, version := None, packaging := "",
                 build := None, profiles := [])
  {
    var t :- LoadTile(tilePom, doc, parse);
    Success(Bind(t, a))
  }

  /**
   * Restoring the ids of a loaded tile's build gives back the plugins the reader produced: the
   * rewrite loses nothing of the document.
   */
  lemma NewTileRestores(tilePom: string, doc: Node, parse: Node -> Result<Model, Exception>, a: Artifact)
    requires NewTile(tilePom, doc, parse, a).Success?
    requires NewTile(tilePom, doc, parse, a).value.model.build.Some?
    ensures
      var parsed := parse(StrippedPom(doc).value.document).value;
      RestorePluginExecutionIds(NewTile(tilePom, doc, parse, a).value.model.build.value.plugins, a)
        == parsed.build.value.plugins
  {
    RestoreRewritePlugins(parse(StrippedPom(doc).value.document).value.build.value.plugins, a);
  }
}
