/**
 * The discovery state of the lifecycle participant and the operations that queue tile
 * references: `processConfigurationTile`, `parseConfiguration`, `parseForExtendedSyntax`,
 * `hasProperty` and `ensureAllTilesDiscoveredAreAccountedFor`.
 *
 * Java holds `TileModel` objects by reference and merges mutate them in place. The model keeps
 * every loaded tile in `heap`, and everything that refers to a tile holds its index there.
 */
module Discovery {
  import opened Wrappers
  import opened Seqs
  import opened Exceptions
  import opened Xpp3
  import opened MavenModel
  import opened GavUtil
  import opened Coordinates
  import opened TileModel

  /** `ArtifactModel`: the artifact a tile was resolved as, and the tile object. */
  datatype Entry = Entry(artifact: Artifact, ref: nat)

  /**
   * The participant's fields: `processedTiles`, `tileDiscoveryOrder`, `unprocessedTiles`,
   * `tilesByExecution` (execution id to tile object) and `applyBeforeParent`.
   */
  datatype State = State(
    heap: seq<Tile>,
    processed: map<string, Entry>,
    order: seq<string>,
    unprocessed: map<string, Artifact>,
    byExecution: map<string, nat>,
    applyBefore: Option<string>)

  /** Every reference in the state points at a tile object. */
  predicate Valid(s: State) {
    && (forall k :: k in s.processed ==> s.processed[k].ref < |s.heap|)
    && (forall e :: e in s.byExecution ==> s.byExecution[e] < |s.heap|)
  }

  /** Every queued or processed artifact is filed under its own `group:artifact` name. */
  predicate Keyed(s: State) {
    && (forall k :: k in s.unprocessed ==> ArtifactName(s.unprocessed[k]) == k)
    && (forall k :: k in s.processed ==> ArtifactName(s.processed[k].artifact) == k)
  }

  /** Every queued or processed key was recorded in the discovery order. */
  predicate Tracked(s: State) {
    && (forall k :: k in s.unprocessed ==> k in s.order)
    && (forall k :: k in s.processed ==> k in s.order)
  }

  lemma QueuedKeepsInvariants(s: State, t: State)
    requires Queued(s, t)
    ensures Valid(s) ==> Valid(t)
    ensures Keyed(s) ==> Keyed(t)
    ensures Tracked(s) ==> Tracked(t)
  {
    if Tracked(s) {
      forall k | k in t.unprocessed
        ensures k in t.order
      {
        if k in s.unprocessed {
          assert k in t.order[..|s.order|];
        } else {
          assert k in t.order[|s.order|..];
        }
      }
      forall k | k in t.processed
        ensures k in t.order
      {
        assert k in t.order[..|s.order|];
      }
    }
  }

  /**
   * The state at the start of a project (`orchestrateMerge` clears the four collections, and
   * the previous project's tile objects are no longer referenced). `applyBeforeParent` is not
   * cleared, so it carries over from the previous project.
   */
  function Cleared(s: State): (r: State)
    ensures Valid(r) && Keyed(r) && Tracked(r)
    ensures r.processed == map[] && r.order == [] && r.unprocessed == map[] && r.byExecution == map[] && r.heap == []
    ensures r.applyBefore == s.applyBefore
  {
    State([], map[], [], map[], map[], s.applyBefore)
  }

  /**
   * `t` differs from `s` only by references queued in between: processed and the tile objects
   * are untouched, queued artifacts keep their values, and the discovery order grows by exactly
   * the newly queued keys, each once, none of which was known before.
   */
  predicate Queued(s: State, t: State) {
    && t.heap == s.heap && t.processed == s.processed && t.byExecution == s.byExecution
    && |s.order| <= |t.order| && t.order[..|s.order|] == s.order
    && (forall k :: k in s.unprocessed ==> k in t.unprocessed && t.unprocessed[k] == s.unprocessed[k])
    && (forall k :: k in t.order[|s.order|..] ==> k in t.unprocessed && k !in s.unprocessed)
    && (forall k :: k in t.unprocessed && k !in s.unprocessed ==> k in t.order[|s.order|..])
    && (forall k :: k in t.unprocessed && k !in s.unprocessed ==> ArtifactName(t.unprocessed[k]) == k)
    && (forall k :: k in t.order[|s.order|..] ==> k !in s.processed)
    && NoDuplicates(t.order[|s.order|..])
  }

  lemma QueuedTransitive(a: State, b: State, c: State)
    requires Queued(a, b) && Queued(b, c)
    ensures Queued(a, c)
  {
    var n, m := |a.order|, |b.order|;
    var x, y := b.order[n..], c.order[m..];
    assert c.order[..n] == c.order[..m][..n];
    assert c.order[n..] == x + y by {
      assert c.order == c.order[..m] + y;
    }
    forall i | 0 <= i < |x|
      ensures x[i] !in y
    {
      assert x[i] in b.unprocessed;
    }
    NoDuplicatesConcat(x, y);
  }


  lemma QueuedReflexive(s: State)
    ensures Queued(s, s)
  {
    assert s.order[|s.order|..] == [];
  }

  /**
   * `processConfigurationTile`: parse the reference and key it by `group:artifact`. A new key is
   * queued and appended to the discovery order; a key already processed or queued changes
   * nothing (the Java re-puts the existing entry of a `HashMap`, which keeps its value).
   */
  function ProcessConfigurationTile(s: State, text: string): (r: Result<State, Exception>)
    ensures r.Failure? <==> TurnPropertyIntoUnprocessedTile(text).Failure?
    ensures r.Failure? ==> r.error == TurnPropertyIntoUnprocessedTile(text).error
    ensures r.Success? ==> Queued(s, r.value) && r.value.applyBefore == s.applyBefore
    ensures r.Success? ==>
      var a := TurnPropertyIntoUnprocessedTile(text).value;
      var k := ArtifactName(a);
      && k in r.value.unprocessed.Keys + r.value.processed.Keys
      && (k !in s.processed && k !in s.unprocessed ==> r.value.unprocessed[k] == a && r.value.order == s.order + [k])
      && (k in s.processed || k in s.unprocessed ==> r.value == s)
  {
    var a :- TurnPropertyIntoUnprocessedTile(text);
    var k := ArtifactName(a);
    if k !in s.processed && k !in s.unprocessed then
      var t := s.(unprocessed := s.unprocessed[k := a], order := s.order + [k]);
      assert t.order[|s.order|..] == [k];
      Success(t)
    else
      QueuedReflexive(s);
      Success(s)
  }

  /** Declaring the same reference again is a no-op. */
  lemma ProcessTwiceIsOnce(s: State, text: string)
    requires ProcessConfigurationTile(s, text).Success?
    ensures ProcessConfigurationTile(ProcessConfigurationTile(s, text).value, text) == ProcessConfigurationTile(s, text)
  {
  }

  /**
   * Version, type and classifier never tell two references apart: once `g:a:1` is queued, a
   * later `g:a:2` (or a long form of `g:a`) changes nothing.
   */
  lemma SameKeyIsRepeat(s: State, first: string, second: string)
    requires ProcessConfigurationTile(s, first).Success?
    requires TurnPropertyIntoUnprocessedTile(second).Success?
    requires TurnPropertyIntoUnprocessedTile(first).value.groupId == TurnPropertyIntoUnprocessedTile(second).value.groupId
    requires TurnPropertyIntoUnprocessedTile(first).value.artifactId == TurnPropertyIntoUnprocessedTile(second).value.artifactId
    ensures ProcessConfigurationTile(ProcessConfigurationTile(s, first).value, second) == ProcessConfigurationTile(s, first)
  {
  }

  /** A reference that parses: the key it is queued under. */
  predicate Parses(text: Option<string>) {
    text.Some? && TurnPropertyIntoUnprocessedTile(text.value).Success?
  }

  function KeyOf(text: Option<string>): string
    requires Parses(text)
  {
    ArtifactName(TurnPropertyIntoUnprocessedTile(text.value).value)
  }

  /**
   * A loop of `processConfigurationTile` calls. A `null` reference fails on `split` with a
   * null-pointer error; the first failure ends the loop.
   */
  function ProcessAll(s: State, texts: seq<Option<string>>): (r: Result<State, Exception>)
    ensures r.Failure? <==> exists i :: 0 <= i < |texts| && !Parses(texts[i])
    ensures r.Success? ==> Queued(s, r.value) && r.value.applyBefore == s.applyBefore
    ensures r.Success? ==> forall i :: 0 <= i < |texts| ==> KeyOf(texts[i]) in r.value.unprocessed.Keys + r.value.processed.Keys
    decreases |texts|
  {
    if texts == [] then
      QueuedReflexive(s);
      Success(s)
    else
      match texts[0]
      case None => Failure(NullPointer("tile reference"))
      case Some(text) =>
        match ProcessConfigurationTile(s, text)
        case Failure(e) => Failure(e)
        case Success(s1) =>
          var r := ProcessAll(s1, texts[1..]);
          if r.Success? then
            ProcessedFirst(s, s1, r.value, texts);
            Success(r.value)
          else
            assert forall i :: 0 <= i < |texts[1..]| ==> texts[1..][i] == texts[i + 1];
            Failure(r.error)
  }

  /** The first reference, then the rest: every key ends up known and the queueing composes. */
  lemma ProcessedFirst(s: State, s1: State, r: State, texts: seq<Option<string>>)
    requires texts != [] && forall i :: 0 <= i < |texts| ==> Parses(texts[i])
    requires KeyOf(texts[0]) in s1.unprocessed.Keys + s1.processed.Keys
    requires Queued(s, s1) && Queued(s1, r)
    requires forall i :: 0 <= i < |texts[1..]| ==> KeyOf(texts[1..][i]) in r.unprocessed.Keys + r.processed.Keys
    ensures Queued(s, r)
    ensures forall i :: 0 <= i < |texts| ==> KeyOf(texts[i]) in r.unprocessed.Keys + r.processed.Keys
  {
    QueuedTransitive(s, s1, r);
    forall i | 0 <= i < |texts|
      ensures KeyOf(texts[i]) in r.unprocessed.Keys + r.processed.Keys
    {
      var k := KeyOf(texts[i]);
      if i == 0 {
        if k in s1.unprocessed {
          assert k in r.unprocessed;
        } else {
          assert k in s1.processed && s1.processed == r.processed;
        }
      } else {
        assert texts[i] == texts[1..][i - 1];
      }
    }
  }

  /** The configuration of the first tiles plugin that has one (`findFirst` over the plugins). */
  function TilesConfiguration(plugins: seq<Plugin>): (r: Option<Dom>)
    ensures r.None? <==> forall i :: 0 <= i < |plugins| ==> !IsTilesPlugin(plugins[i]) || plugins[i].configuration.None?
    ensures r.Some? ==>
      exists i :: (0 <= i < |plugins| && IsTilesPlugin(plugins[i]) && plugins[i].configuration == r &&
                   forall j :: 0 <= j < i ==> !IsTilesPlugin(plugins[j]) || plugins[j].configuration.None?)
  {
    if plugins == [] then None
    else if IsTilesPlugin(plugins[0]) && plugins[0].configuration.Some? then
      plugins[0].configuration
    else
      var r := TilesConfiguration(plugins[1..]);
      if r.Some? then
        var i :| 0 <= i < |plugins[1..]| && IsTilesPlugin(plugins[1..][i]) && plugins[1..][i].configuration == r
          && (forall j :: 0 <= j < i ==> !IsTilesPlugin(plugins[1..][j]) || plugins[1..][j].configuration.None?);
        assert plugins[i + 1] == plugins[1..][i];
        r
      else
        r
  }

  /** The `tiles` element of the tiles plugin configuration, when there is one. */
  function DeclaredTiles(m: Model): Option<Dom> {
    if m.build.None? then None
    else match TilesConfiguration(m.build.value.plugins)
      case None => None
      case Some(c) => GetChild(c, "tiles")
  }

  function ChildValues(cs: seq<Dom>): (r: seq<Option<string>>)
    ensures |r| == |cs| && forall i :: 0 <= i < |cs| ==> r[i] == cs[i].value
  {
    seq(|cs|, i requires 0 <= i < |cs| => cs[i].value)
  }

  /**
   * How reading `m`'s plugin configuration moves `applyBeforeParent` from `before` to `after`:
   * with a `tiles` element it becomes the text of the `applyBefore` child, "false" when there is
   * no such child; without one it stays as it was.
   */
  predicate SetsApplyBefore(m: Model, before: Option<string>, after: Option<string>) {
    if DeclaredTiles(m).None? then after == before
    else
      var c := TilesConfiguration(m.build.value.plugins).value;
      after == (if GetChild(c, "applyBefore").None? then Some("false") else GetChild(c, "applyBefore").value.value)
  }

  /**
   * `parseConfiguration`: every child of the `tiles` element is queued (whatever the child's
   * name), and then `applyBeforeParent` is set from the `applyBefore` child, "false" when absent.
   * Without a `tiles` element nothing changes, `applyBeforeParent` included.
   */
  function ParseConfiguration(s: State, m: Model): (r: Result<State, Exception>)
    ensures DeclaredTiles(m).None? ==> r == Success(s)
    ensures DeclaredTiles(m).Some? ==>
      var children := DeclaredTiles(m).value.children;
      && (r.Failure? <==> exists i :: 0 <= i < |children| && !Parses(children[i].value))
      && (r.Success? ==> forall i :: 0 <= i < |children| ==>
            KeyOf(children[i].value) in r.value.unprocessed.Keys + r.value.processed.Keys)
    ensures r.Success? ==> Queued(s, r.value)
    ensures r.Success? ==> SetsApplyBefore(m, s.applyBefore, r.value.applyBefore)
  {
    match DeclaredTiles(m)
    case None => Success(s)
    case Some(tiles) =>
      var c := TilesConfiguration(m.build.value.plugins).value;
      var s1 :- ProcessAll(s, ChildValues(tiles.children));
      var applyBefore := match GetChild(c, "applyBefore")
        case None => Some("false")
        case Some(d) => d.value;
      Success(s1.(applyBefore := applyBefore))
  }

  /** The tile's own `tile` references, as `parseForExtendedSyntax` hands them on. */
  function OwnTexts(t: Tile): (r: seq<Option<string>>)
    ensures |r| == |t.tiles| && forall i :: 0 <= i < |t.tiles| ==> r[i] == Some(t.tiles[i])
  {
    seq(|t.tiles|, i requires 0 <= i < |t.tiles| => Some(t.tiles[i]))
  }

  /** The children of the model's `tiles` configuration element, none without one. */
  function DeclaredTexts(m: Model): (r: seq<Option<string>>)
    ensures DeclaredTiles(m).None? ==> r == []
    ensures DeclaredTiles(m).Some? ==> r == ChildValues(DeclaredTiles(m).value.children)
  {
    match DeclaredTiles(m)
    case None => []
    case Some(d) => ChildValues(d.children)
  }

  /** Every one of `texts` parses. */
  predicate AllParse(texts: seq<Option<string>>) {
    forall i :: 0 <= i < |texts| ==> Parses(texts[i])
  }

  /** The keys the parsing ones of `texts` are queued under. */
  function KeysOf(texts: seq<Option<string>>): (r: set<string>)
    ensures forall i :: 0 <= i < |texts| && Parses(texts[i]) ==> KeyOf(texts[i]) in r
  {
    set i | 0 <= i < |texts| && Parses(texts[i]) :: KeyOf(texts[i])
  }

  lemma KeysOfCovered(texts: seq<Option<string>>, keys: set<string>)
    requires forall i :: 0 <= i < |texts| ==> Parses(texts[i]) && KeyOf(texts[i]) in keys
    ensures KeysOf(texts) <= keys
  {
  }

  /** Keys queued before a later step of queueing stay queued or processed. */
  lemma OwnKeysCovered(own: seq<Option<string>>, s1: State, s2: State)
    requires Queued(s1, s2)
    requires forall i :: 0 <= i < |own| ==> Parses(own[i]) && KeyOf(own[i]) in s1.unprocessed.Keys + s1.processed.Keys
    ensures KeysOf(own) <= s2.unprocessed.Keys + s2.processed.Keys
  {
    forall i | 0 <= i < |own|
      ensures KeyOf(own[i]) in s2.unprocessed.Keys + s2.processed.Keys
    {
      if KeyOf(own[i]) in s1.unprocessed {
        assert KeyOf(own[i]) in s2.unprocessed;
      }
    }
    KeysOfCovered(own, s2.unprocessed.Keys + s2.processed.Keys);
  }

  /** Every reference a tile declares, its own and its configuration's, parses. */
  predicate ReferencesParse(t: Tile) {
    AllParse(OwnTexts(t)) && AllParse(DeclaredTexts(t.model))
  }

  /** The keys of the references a tile declares. */
  function ReferenceKeys(t: Tile): set<string> {
    KeysOf(OwnTexts(t)) + KeysOf(DeclaredTexts(t.model))
  }

  /**
   * `parseForExtendedSyntax`: the tile's own `tile` references first, then the plugin
   * configuration of its model, which also sets `applyBeforeParent` when it has a `tiles`
   * element. It fails exactly when one of the references does not parse; otherwise every
   * reference is queued or already processed.
   */
  function ParseForExtendedSyntax(s: State, t: Tile): (r: Result<State, Exception>)
    ensures r.Failure? <==> !ReferencesParse(t)
    ensures r.Success? ==> Queued(s, r.value)
    ensures r.Success? ==> ReferenceKeys(t) <= r.value.unprocessed.Keys + r.value.processed.Keys
    ensures r.Success? ==> SetsApplyBefore(t.model, s.applyBefore, r.value.applyBefore)
  {
    var own := OwnTexts(t);
    var s1 :- ProcessAll(s, own);
    var s2 :- ParseConfiguration(s1, t.model);
    QueuedTransitive(s, s1, s2);
    OwnKeysCovered(own, s1, s2);
    KeysOfCovered(DeclaredTexts(t.model), s2.unprocessed.Keys + s2.processed.Keys);
    Success(s2)
  }

  /** References that are all known already leave the state as it was. */
  lemma {:induction false} ProcessAllKnown(s: State, texts: seq<Option<string>>)
    requires forall i :: 0 <= i < |texts| ==> Parses(texts[i]) && KeyOf(texts[i]) in s.unprocessed.Keys + s.processed.Keys
    ensures ProcessAll(s, texts) == Success(s)
    decreases |texts|
  {
    if texts != [] {
      assert ProcessConfigurationTile(s, texts[0].value) == Success(s);
      assert forall i :: 0 <= i < |texts[1..]| ==> texts[1..][i] == texts[i + 1];
      ProcessAllKnown(s, texts[1..]);
    }
  }

  /**
   * Reading a tile's references a second time changes nothing: every key is known by then, and
   * `applyBeforeParent` is set to the value it already has.
   */
  lemma ParseForExtendedSyntaxIdempotent(s: State, t: Tile)
    requires ParseForExtendedSyntax(s, t).Success?
    ensures ParseForExtendedSyntax(ParseForExtendedSyntax(s, t).value, t) == ParseForExtendedSyntax(s, t)
  {
    var s2 := ParseForExtendedSyntax(s, t).value;
    ProcessAllKnown(s2, OwnTexts(t));
    match DeclaredTiles(t.model)
    case None =>
    case Some(tiles) =>
      ProcessAllKnown(s2, DeclaredTexts(t.model));
      assert ParseConfiguration(s2, t.model) == Success(s2);
  }

  /**
   * `hasProperty`: removes the property whatever its value and reports whether the removed
   * value was exactly "true" (no case folding).
   */
  function HasProperty(m: Model, key: string): (r: (bool, Model))
    ensures r.0 <==> key in m.properties && m.properties[key] == "true"
    ensures key !in r.1.properties
    ensures r.1.properties.Keys == m.properties.Keys - {key}
    ensures forall k :: k in r.1.properties ==> r.1.properties[k] == m.properties[k]
    ensures r.1.(properties := map[]) == m.(properties := map[])
  {
    (key in m.properties && m.properties[key] == "true", m.(properties := m.properties - {key}))
  }

  /**
   * `ensureAllTilesDiscoveredAreAccountedFor`: drop from the discovery order every key that was
   * never processed (merge sources, and keys of tiles that failed to become processed).
   */
  function EnsureAllTilesDiscoveredAreAccountedFor(s: State): (r: State)
    ensures forall i :: 0 <= i < |r.order| ==> r.order[i] in s.processed
    ensures forall i :: 0 <= i < |s.order| && s.order[i] in s.processed ==> s.order[i] in r.order
    ensures IsSubsequence(r.order, s.order)
    ensures r.(order := []) == s.(order := [])
  {
    s.(order := Filter(s.order, k => k in s.processed))
  }

  /** Pruning a pruned order changes nothing. */
  lemma {:induction false} PruneIdempotent(s: State)
    ensures EnsureAllTilesDiscoveredAreAccountedFor(EnsureAllTilesDiscoveredAreAccountedFor(s))
         == EnsureAllTilesDiscoveredAreAccountedFor(s)
  {
    var r := EnsureAllTilesDiscoveredAreAccountedFor(s);
    FilterKeepsAll(r.order, k => k in s.processed);
  }

  lemma {:induction false} FilterKeepsAll<T>(xs: seq<T>, keep: T -> bool)
    requires forall i :: 0 <= i < |xs| ==> keep(xs[i])
    ensures Filter(xs, keep) == xs
  {
    if xs != [] {
      FilterKeepsAll(xs[1..], keep);
      assert xs == [xs[0]] + xs[1..];
    }
  }
}
