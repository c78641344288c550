/**
 * `injectTilesIntoParentStructure`: splicing the tiles into the project's parent chain as
 * project → t1 → … → tN → original parent, and seeding the model cache with every tile so
 * that the model builder finds them there instead of resolving them.
 */
module ParentChain {
  import opened Wrappers
  import opened Seqs
  import opened Exceptions
  import opened MavenModel
  import opened GavUtil
  import opened NotDefaultModelCache
  import opened TileModel

  /** `ModelData`: what the cache holds for a tile, its file and its model. */
  datatype CachedModel = CachedModel(pomFile: string, model: Model)

  /** The outcome of a splice: the project model, the re-parented tiles, and the cache. */
  datatype Splice = Splice(project: Model, tiles: seq<Tile>, cache: map<Key, CachedModel>)

  /**
   * `evaluateString`: `null` passes through, and a present value goes to Maven's expression
   * evaluator, which may itself yield `null` (an undefined `${…}` expression does).
   */
  function Evaluate(value: Option<string>, eval: string -> Option<string>): (r: Option<string>)
    ensures value.None? ==> r.None?
    ensures value.Some? ==> r == eval(value.value)
  {
    match value
    case None => None
    case Some(v) => eval(v)
  }

  /** A parent reference to a model: its own group, artifact and version. */
  function LinkTo(m: Model): (r: Parent)
    ensures ParentGav(Some(r)) == ModelGav(m)
  {
    Parent(m.groupId, m.artifactId, m.version)
  }

  /** The original parent with its version evaluated, as the splice first does. */
  function EvaluatedParent(p: Option<Parent>, eval: string -> Option<string>): (r: Option<Parent>)
    ensures r.Some? <==> p.Some?
    ensures r.Some? ==> r.value == p.value.(version := Evaluate(p.value.version, eval))
  {
    match p
    case None => None
    case Some(parent) => Some(parent.(version := Evaluate(parent.version, eval)))
  }

  /**
   * A model the cache can be keyed by: `new Key(...)` throws on a `null` group, artifact or
   * evaluated version.
   */
  predicate Cacheable(m: Model, eval: string -> Option<string>) {
    m.groupId.Some? && m.artifactId.Some? && Evaluate(m.version, eval).Some?
  }

  /** The cache key `putModelInCache` uses: group, artifact, evaluated version, tag "raw". */
  function CacheKey(m: Model, eval: string -> Option<string>): (r: Key)
    requires Cacheable(m, eval)
    ensures NewKey(m.groupId, m.artifactId, Evaluate(m.version, eval), Some("raw")) == Success(r)
  {
    Key(m.groupId.value, m.artifactId.value, Evaluate(m.version, eval).value, "raw")
  }

  /** `putModelInCache` for every tile in turn; it fails on the first tile that cannot be keyed. */
  function CacheAll(cache: map<Key, CachedModel>, tiles: seq<Tile>, eval: string -> Option<string>): (r: Result<map<Key, CachedModel>, Exception>)
    ensures r.Success? <==> forall i :: 0 <= i < |tiles| ==> Cacheable(tiles[i].model, eval)
    decreases |tiles|
  {
    if tiles == [] then Success(cache)
    else
      var m := tiles[0].model;
      var c1 :- Put(cache, m.groupId, m.artifactId, Evaluate(m.version, eval), Some("raw"), Some(CachedModel(tiles[0].tilePom, m)));
      var c2 :- CacheAll(c1, tiles[1..], eval);
      Success(c2)
  }

  /** Caching adds exactly the tiles' keys. */
  lemma {:induction false} CacheAllDomain(cache: map<Key, CachedModel>, tiles: seq<Tile>, eval: string -> Option<string>)
    requires CacheAll(cache, tiles, eval).Success?
    ensures forall o :: o in CacheAll(cache, tiles, eval).value <==>
      o in cache || exists i :: 0 <= i < |tiles| && CacheKey(tiles[i].model, eval) == o
    decreases |tiles|
  {
    if tiles != [] {
      var m := tiles[0].model;
      var c1 := Put(cache, m.groupId, m.artifactId, Evaluate(m.version, eval), Some("raw"), Some(CachedModel(tiles[0].tilePom, m))).value;
      CacheAllDomain(c1, tiles[1..], eval);
      forall o ensures o in CacheAll(cache, tiles, eval).value <==>
        o in cache || exists i :: 0 <= i < |tiles| && CacheKey(tiles[i].model, eval) == o
      {
        if exists i :: 0 <= i < |tiles[1..]| && CacheKey(tiles[1..][i].model, eval) == o {
          var i :| 0 <= i < |tiles[1..]| && CacheKey(tiles[1..][i].model, eval) == o;
          assert tiles[i + 1] == tiles[1..][i];
        }
        if exists i :: 0 <= i < |tiles| && CacheKey(tiles[i].model, eval) == o {
          var i :| 0 <= i < |tiles| && CacheKey(tiles[i].model, eval) == o;
          if i > 0 {
            assert tiles[1..][i - 1] == tiles[i];
          }
        }
      }
    }
  }

  /** A key no tile uses keeps its old entry. */
  lemma {:induction false} CacheAllUntouched(cache: map<Key, CachedModel>, tiles: seq<Tile>, eval: string -> Option<string>, o: Key)
    requires CacheAll(cache, tiles, eval).Success?
    requires o in cache
    requires forall i :: 0 <= i < |tiles| ==> CacheKey(tiles[i].model, eval) != o
    ensures o in CacheAll(cache, tiles, eval).value && CacheAll(cache, tiles, eval).value[o] == cache[o]
    decreases |tiles|
  {
    if tiles != [] {
      var m := tiles[0].model;
      var c1 := Put(cache, m.groupId, m.artifactId, Evaluate(m.version, eval), Some("raw"), Some(CachedModel(tiles[0].tilePom, m))).value;
      assert CacheKey(tiles[0].model, eval) != o;
      assert forall i :: 0 <= i < |tiles[1..]| ==> tiles[1..][i] == tiles[i + 1];
      CacheAllUntouched(c1, tiles[1..], eval, o);
    }
  }

  /** The last tile put under a key wins: a tile no later tile shares a key with is cached as itself. */
  lemma {:induction false} CacheAllLastWins(cache: map<Key, CachedModel>, tiles: seq<Tile>, eval: string -> Option<string>, i: nat)
    requires CacheAll(cache, tiles, eval).Success?
    requires i < |tiles|
    requires forall j :: i < j < |tiles| ==> CacheKey(tiles[j].model, eval) != CacheKey(tiles[i].model, eval)
    ensures CacheKey(tiles[i].model, eval) in CacheAll(cache, tiles, eval).value
    ensures CacheAll(cache, tiles, eval).value[CacheKey(tiles[i].model, eval)] == CachedModel(tiles[i].tilePom, tiles[i].model)
    decreases |tiles|
  {
    var m := tiles[0].model;
    var c1 := Put(cache, m.groupId, m.artifactId, Evaluate(m.version, eval), Some("raw"), Some(CachedModel(tiles[0].tilePom, m))).value;
    assert forall j :: 0 <= j < |tiles[1..]| ==> tiles[1..][j] == tiles[j + 1];
    if i == 0 {
      CacheAllUntouched(c1, tiles[1..], eval, CacheKey(m, eval));
    } else {
      CacheAllLastWins(c1, tiles[1..], eval, i - 1);
    }
  }

  /** The tiles with their parents re-pointed: each at the next tile, the last at `top`. */
  function Relink(tiles: seq<Tile>, top: Option<Parent>): (r: seq<Tile>)
    ensures |r| == |tiles|
    ensures forall i :: 0 <= i < |r| ==> r[i] == tiles[i].(model := tiles[i].model.(parent := r[i].model.parent))
    ensures forall i :: 0 <= i < |r| - 1 ==> r[i].model.parent == Some(LinkTo(tiles[i + 1].model))
    ensures |r| > 0 ==> r[|r| - 1].model.parent == top
  {
    seq(|tiles|, i requires 0 <= i < |tiles| =>
      var parent := if i + 1 < |tiles| then Some(LinkTo(tiles[i + 1].model)) else top;
      tiles[i].(model := tiles[i].model.(parent := parent)))
  }

  /** Re-pointing parents changes neither whether a tile can be keyed nor its key. */
  lemma RelinkKeepsKeys(tiles: seq<Tile>, top: Option<Parent>, eval: string -> Option<string>)
    ensures forall i :: 0 <= i < |tiles| ==>
      && Cacheable(Relink(tiles, top)[i].model, eval) == Cacheable(tiles[i].model, eval)
      && (Cacheable(tiles[i].model, eval) ==> CacheKey(Relink(tiles, top)[i].model, eval) == CacheKey(tiles[i].model, eval))
  {
  }

  /** A coordinate the project leaves out, taken from its parent's. */
  function Backfill(own: Option<string>, inherited: Option<string>): (r: Option<string>)
    ensures own.Some? ==> r == own
    ensures own.None? ==> r == inherited
  {
    if own.Some? then own else inherited
  }

  /** The parent's group id, `null` without a parent. */
  function ParentGroupId(p: Option<Parent>): Option<string> {
    if p.Some? then p.value.groupId else None
  }

  /** The parent's version, `null` without a parent. */
  function ParentVersion(p: Option<Parent>): Option<string> {
    if p.Some? then p.value.version else None
  }

  /**
   * Tiles that can be spliced above `pom`: there is at least one, each can be keyed in the
   * cache, and the project has a parent or both its own group id and version.
   */
  predicate Spliceable(tiles: seq<Tile>, pom: Model, eval: string -> Option<string>) {
    && tiles != []
    && (pom.parent.Some? || (pom.groupId.Some? && pom.version.Some?))
    && forall i :: 0 <= i < |tiles| ==> Cacheable(tiles[i].model, eval)
  }

  /**
   * The splice. The original parent's version is evaluated first. With tiles, a project
   * without its own groupId or version takes the original parent's (a missing original parent
   * then fails with a null-pointer error); the project's parent becomes t1, each tile's
   * parent the next tile, and the last tile's parent the original parent; every tile is put
   * in the cache. Without tiles only the original parent's version is evaluated.
   */
  function InjectTilesIntoParentStructure(tiles: seq<Tile>, pom: Model, cache: map<Key, CachedModel>, eval: string -> Option<string>)
    : (r: Result<Splice, Exception>)
    ensures r.Failure? <==>
      || (tiles != [] && pom.parent.None? && (pom.groupId.None? || pom.version.None?))
      || (tiles != [] && exists i :: 0 <= i < |tiles| && !Cacheable(tiles[i].model, eval))
    ensures r.Success? ==> |r.value.tiles| == |tiles| && forall i :: 0 <= i < |tiles| ==>
      r.value.tiles[i] == tiles[i].(model := tiles[i].model.(parent := r.value.tiles[i].model.parent))
    ensures r.Success? ==> forall i :: 0 <= i < |tiles| - 1 ==> r.value.tiles[i].model.parent == Some(LinkTo(tiles[i + 1].model))
    ensures r.Success? && tiles != [] ==> r.value.tiles[|tiles| - 1].model.parent == EvaluatedParent(pom.parent, eval)
    ensures r.Success? && tiles == [] ==>
      r.value.project == pom.(parent := EvaluatedParent(pom.parent, eval)) && r.value.cache == cache
    ensures r.Success? && tiles != [] ==>
      r.value.project == pom.(groupId := RealGroupId(pom),
                              version := RealVersion(pom.(parent := EvaluatedParent(pom.parent, eval))),
                              parent := Some(LinkTo(tiles[0].model)))
  {
    var original := EvaluatedParent(pom.parent, eval);
    if tiles == [] then
      Success(Splice(pom.(parent := original), [], cache))
    else if original.None? && (pom.groupId.None? || pom.version.None?) then
      Failure(NullPointer("original parent"))
    else
      var groupId := Backfill(pom.groupId, ParentGroupId(original));
      var version := Backfill(pom.version, ParentVersion(original));
      var project := pom.(groupId := groupId, version := version, parent := Some(LinkTo(tiles[0].model)));
      var linked := Relink(tiles, original);
      RelinkKeepsKeys(tiles, original, eval);
      var cached :- CacheAll(cache, linked, eval);
      var r := Splice(project, linked, cached);
      Success(r)
  }

  /** The splice caches the re-parented tiles, whose keys are those of the tiles given. */
  lemma SpliceCachesLinked(tiles: seq<Tile>, pom: Model, cache: map<Key, CachedModel>, eval: string -> Option<string>)
    requires Spliceable(tiles, pom, eval)
    ensures var s := InjectTilesIntoParentStructure(tiles, pom, cache, eval).value;
      && CacheAll(cache, s.tiles, eval) == Success(s.cache)
      && forall i :: 0 <= i < |tiles| ==> Cacheable(tiles[i].model, eval) && CacheKey(s.tiles[i].model, eval) == CacheKey(tiles[i].model, eval)
  {
    var original := EvaluatedParent(pom.parent, eval);
    RelinkKeepsKeys(tiles, original, eval);
  }

  /** The splice adds exactly the tiles' keys to the cache. */
  lemma SpliceCacheDomain(tiles: seq<Tile>, pom: Model, cache: map<Key, CachedModel>, eval: string -> Option<string>)
    requires Spliceable(tiles, pom, eval)
    ensures forall o :: o in InjectTilesIntoParentStructure(tiles, pom, cache, eval).value.cache <==>
      o in cache || exists i :: 0 <= i < |tiles| && CacheKey(tiles[i].model, eval) == o
  {
    var s := InjectTilesIntoParentStructure(tiles, pom, cache, eval).value;
    SpliceCachesLinked(tiles, pom, cache, eval);
    CacheAllDomain(cache, s.tiles, eval);
  }

  /** A cache entry under a key no tile uses survives the splice. */
  lemma SpliceCacheUntouched(tiles: seq<Tile>, pom: Model, cache: map<Key, CachedModel>, eval: string -> Option<string>, o: Key)
    requires Spliceable(tiles, pom, eval)
    requires o in cache && forall i :: 0 <= i < |tiles| ==> CacheKey(tiles[i].model, eval) != o
    ensures o in InjectTilesIntoParentStructure(tiles, pom, cache, eval).value.cache
    ensures InjectTilesIntoParentStructure(tiles, pom, cache, eval).value.cache[o] == cache[o]
  {
    var s := InjectTilesIntoParentStructure(tiles, pom, cache, eval).value;
    SpliceCachesLinked(tiles, pom, cache, eval);
    CacheAllUntouched(cache, s.tiles, eval, o);
  }

  /**
   * A tile no later tile shares a key with is cached, under its key, as its own file and its
   * re-parented model: the model builder meets the spliced chain, not the tile as loaded.
   */
  lemma SpliceCachesTile(tiles: seq<Tile>, pom: Model, cache: map<Key, CachedModel>, eval: string -> Option<string>, i: nat)
    requires Spliceable(tiles, pom, eval)
    requires i < |tiles| && forall j :: i < j < |tiles| ==> CacheKey(tiles[j].model, eval) != CacheKey(tiles[i].model, eval)
    ensures var s := InjectTilesIntoParentStructure(tiles, pom, cache, eval).value;
      && CacheKey(tiles[i].model, eval) in s.cache
      && s.cache[CacheKey(tiles[i].model, eval)] == CachedModel(tiles[i].tilePom, s.tiles[i].model)
  {
    var s := InjectTilesIntoParentStructure(tiles, pom, cache, eval).value;
    SpliceCachesLinked(tiles, pom, cache, eval);
    CachedUnderOwnKey(cache, tiles, s.tiles, s.cache, eval, i);
  }

  /** Tiles cached in a re-parented form are found under their own keys, the last one winning. */
  lemma CachedUnderOwnKey(cache: map<Key, CachedModel>, tiles: seq<Tile>, linked: seq<Tile>, result: map<Key, CachedModel>,
                          eval: string -> Option<string>, i: nat)
    requires |linked| == |tiles| && i < |tiles| && linked[i].tilePom == tiles[i].tilePom
    requires forall j :: 0 <= j < |tiles| ==>
      Cacheable(tiles[j].model, eval) && Cacheable(linked[j].model, eval) && CacheKey(linked[j].model, eval) == CacheKey(tiles[j].model, eval)
    requires CacheAll(cache, linked, eval) == Success(result)
    requires forall j :: i < j < |tiles| ==> CacheKey(tiles[j].model, eval) != CacheKey(tiles[i].model, eval)
    ensures CacheKey(tiles[i].model, eval) in result
    ensures result[CacheKey(tiles[i].model, eval)] == CachedModel(tiles[i].tilePom, linked[i].model)
  {
    CacheAllLastWins(cache, linked, eval, i);
  }

  /**
   * Re-parenting onto the tiles does not move the project: the group id and version it
   * inherited from its original parent are pinned on the project itself first.
   */
  lemma SpliceKeepsCoordinates(tiles: seq<Tile>, pom: Model, cache: map<Key, CachedModel>, eval: string -> Option<string>)
    requires Spliceable(tiles, pom, eval)
    requires RealGroupId(pom).Some? && RealVersion(pom).Some?
    ensures var project := InjectTilesIntoParentStructure(tiles, pom, cache, eval).value.project;
      && RealGroupId(project) == RealGroupId(pom)
      && ModelRealGa(project) == ModelRealGa(pom)
      && RealVersion(project).Some?
  {
  }

  /** Without tiles the project keeps its parent (with the version evaluated) and the cache is untouched. */
  lemma NoTilesNoSplice(pom: Model, cache: map<Key, CachedModel>, eval: string -> Option<string>)
    ensures InjectTilesIntoParentStructure([], pom, cache, eval).Success?
    ensures InjectTilesIntoParentStructure([], pom, cache, eval).value.project.parent == EvaluatedParent(pom.parent, eval)
    ensures InjectTilesIntoParentStructure([], pom, cache, eval).value.cache == cache
  {
  }
}
