/**
 * `loadAllDiscoveredTiles`: the discovery worklist. Repository resolution and XML parsing are
 * outside the model and come in as functions; `HashMap` iteration order comes in as a chooser.
 * The loop is bounded by a fuel count, one unit per loaded tile.
 */
module Loader {
  import opened Wrappers
  import opened Seqs
  import opened Exceptions
  import opened MavenModel
  import opened GavUtil
  import opened TileModel
  import opened Discovery
  import opened Merger

  /** What resolving a tile artifact yields: its resolved version, its file and the file's XML. */
  datatype Fetched = Fetched(version: string, tilePom: string, document: Node)

  /**
   * The collaborators: `resolveTile` (repository and reactor lookup, version-range resolution),
   * the model reader, and the order in which a `HashMap` hands out its keys (`pick` chooses
   * the next key of a non-empty key set).
   */
  datatype Env = Env(
    resolve: Artifact -> Result<Fetched, Exception>,
    parse: Node -> Result<Model, Exception>,
    pick: set<string> -> string)

  ghost predicate ValidEnv(env: Env) {
    forall keys: set<string> :: keys != {} ==> env.pick(keys) in keys
  }

  /** A loaded tile and the artifact it was resolved as. */
  datatype Loaded = Loaded(artifact: Artifact, tile: Tile)

  /**
   * `resolveTile` then `loadModel`: the tile is bound to the resolved artifact; any failure of
   * the tile reader is reported as an error parsing that artifact. It never yields `null`.
   */
  function LoadModel(env: Env, a: Artifact): (r: Result<Loaded, Exception>)
    ensures r.Success? ==> env.resolve(a).Success? && r.value.artifact == a.(version := env.resolve(a).value.version)
    ensures r.Success? ==>
      && r.value.tile.model.groupId == Some(r.value.artifact.groupId)
      && r.value.tile.model.artifactId == Some(r.value.artifact.artifactId)
      && r.value.tile.model.version == Some(r.value.artifact.version)
    ensures env.resolve(a).Failure? ==> r == Failure(env.resolve(a).error)
  {
    var fetched :- env.resolve(a);
    var resolved := a.(version := fetched.version);
    match NewTile(fetched.tilePom, fetched.document, env.parse, resolved)
    case Failure(_) => Failure(External("Error parsing " + ArtifactGav(resolved)))
    case Success(t) => Success(Loaded(resolved, t))
  }

  /** No tile carries the `tile-merge-source` flag any more. */
  predicate FlagFree(tiles: seq<Tile>) {
    forall i :: 0 <= i < |tiles| ==> "tile-merge-source" !in tiles[i].model.properties
  }

  /** Every processed entry's tile object carries the identity of the entry's artifact. */
  predicate Bound(s: State) {
    forall k :: k in s.processed ==>
      var e := s.processed[k];
      && e.ref < |s.heap|
      && s.heap[e.ref].model.groupId == Some(e.artifact.groupId)
      && s.heap[e.ref].model.artifactId == Some(e.artifact.artifactId)
      && s.heap[e.ref].model.version == Some(e.artifact.version)
  }

  /** The invariants of the discovery state while tiles load. */
  predicate GoodState(s: State) {
    Valid(s) && Keyed(s) && Tracked(s) && Bound(s) && FlagFree(s.heap)
  }

  /** The worklist's state and the merge-source tiles held aside so far. */
  datatype Progress = Progress(state: State, held: seq<Tile>)

  predicate Good(p: Progress) {
    GoodState(p.state) && FlagFree(p.held)
  }

  /**
   * The keys of held merge sources: a loaded tile carries its artifact's group and artifact,
   * so `groupId:artifactId` of its model is the key it was queued under.
   */
  function HeldKeys(held: seq<Tile>): (r: set<string>)
    ensures forall i :: 0 <= i < |held| ==> FragmentId(held[i].model) in r
    ensures forall k :: k in r ==> exists i :: 0 <= i < |held| && FragmentId(held[i].model) == k
  {
    set i | 0 <= i < |held| :: FragmentId(held[i].model)
  }

  lemma HeldKeysGrow(h1: seq<Tile>, h2: seq<Tile>)
    requires |h1| <= |h2| && h2[..|h1|] == h1
    ensures HeldKeys(h1) <= HeldKeys(h2)
  {
    forall k | k in HeldKeys(h1)
      ensures k in HeldKeys(h2)
    {
      var i :| 0 <= i < |h1| && FragmentId(h1[i].model) == k;
      assert h2[i] == h1[i];
    }
  }

  /**
   * Every reference of every processed tile is processed, still queued, or one of `settled`:
   * no reference is lost on the way.
   */
  predicate ClosedBy(s: State, settled: set<string>) {
    forall k, x :: k in s.processed && s.processed[k].ref < |s.heap| && x in ReferenceKeys(s.heap[s.processed[k].ref]) ==>
      x in s.processed || x in s.unprocessed || x in settled
  }

  /** How loading may change the state: keys only gain, the order and the tile objects only grow. */
  predicate Grows(s: State, t: State) {
    && s.processed.Keys <= t.processed.Keys
    && |s.order| <= |t.order| && t.order[..|s.order|] == s.order
    && |s.heap| <= |t.heap| && t.heap[..|s.heap|] == s.heap
  }

  lemma GrowsTransitive(a: State, b: State, c: State)
    requires Grows(a, b) && Grows(b, c)
    ensures Grows(a, c)
  {
    assert c.order[..|b.order|][..|a.order|] == c.order[..|a.order|];
    assert c.heap[..|b.heap|][..|a.heap|] == c.heap[..|a.heap|];
  }

  lemma QueuedGrows(s: State, t: State)
    requires Queued(s, t)
    ensures Grows(s, t)
    ensures GoodState(s) ==> GoodState(t)
  {
    QueuedKeepsInvariants(s, t);
    assert t.heap[..|s.heap|] == s.heap;
  }

  /** Allocating a flag-free tile object keeps the invariants. */
  lemma Allocated(s: State, tile: Tile)
    requires GoodState(s) && "tile-merge-source" !in tile.model.properties
    ensures GoodState(s.(heap := s.heap + [tile])) && Grows(s, s.(heap := s.heap + [tile]))
  {
    var t := s.(heap := s.heap + [tile]);
    assert t.heap[..|s.heap|] == s.heap;
    assert forall i :: 0 <= i < |s.heap| ==> t.heap[i] == s.heap[i];
  }

  /** Recording the newest tile object under its artifact's name keeps the invariants. */
  lemma Recorded(s0: State, s2: State, a: Artifact, ref: nat)
    requires GoodState(s0)
    requires s2.processed == s0.processed && s2.unprocessed == s0.unprocessed && s2.order == s0.order
    requires |s2.heap| == |s0.heap| + 1 && s2.heap[..|s0.heap|] == s0.heap && ref == |s0.heap|
    requires FlagFree(s2.heap) && Valid(s2)
    requires ArtifactName(a) in s0.order
    requires s2.heap[ref].model.groupId == Some(a.groupId) && s2.heap[ref].model.artifactId == Some(a.artifactId)
    requires s2.heap[ref].model.version == Some(a.version)
    ensures var s3 := s2.(processed := s2.processed[ArtifactName(a) := Entry(a, ref)]);
      GoodState(s3) && Grows(s0, s3)
  {
    assert forall i :: 0 <= i < |s0.heap| ==> s2.heap[i] == s0.heap[i];
  }

  /**
   * A tile that is not a merge source: allocate its object (without the `tile-merge-target`
   * flag), register its executions if it is a merge target, record it as processed, and queue
   * its own references. It fails when a merge target has no build, or a reference does not parse.
   */
  /**
   * What accepting `loaded` (with flags `m1`) into `s0` produced in `r`: the artifact's key is
   * processed under a fresh tile object holding the model without the merge-target flag; a
   * merge target registers every execution id of its build plugins to that object, any other
   * tile leaves the registrations alone; and each of the tile's references is processed or
   * queued.
   */
  predicate Admitted(s0: State, loaded: Loaded, m1: Model, r: State) {
    var name := ArtifactName(loaded.artifact);
    var ref := |s0.heap|;
    var (isTarget, m2) := HasProperty(m1, "tile-merge-target");
    && name !in r.unprocessed
    && name in r.processed && r.processed[name] == Entry(loaded.artifact, ref)
    && ref < |r.heap| && r.heap[ref] == loaded.tile.(model := m2)
    && "tile-merge-target" !in r.heap[ref].model.properties
    && (isTarget ==> m2.build.Some? && forall e :: e in ExecutionIds(m2.build.value.plugins) ==> e in r.byExecution && r.byExecution[e] == ref)
    && (!isTarget ==> r.byExecution == s0.byExecution)
    && ReferenceKeys(r.heap[ref]) <= r.unprocessed.Keys + r.processed.Keys
  }

  function Accept(s0: State, loaded: Loaded, m1: Model): (r: Result<State, Exception>)
    requires GoodState(s0)
    requires ArtifactName(loaded.artifact) in s0.order && ArtifactName(loaded.artifact) !in s0.unprocessed
    requires "tile-merge-source" !in m1.properties
    requires m1.groupId == Some(loaded.artifact.groupId) && m1.artifactId == Some(loaded.artifact.artifactId)
    requires m1.version == Some(loaded.artifact.version)
    ensures
      var (isTarget, m2) := HasProperty(m1, "tile-merge-target");
      r.Failure? <==>
        (isTarget && m2.build.None?)
        || !ReferencesParse(loaded.tile.(model := m2))
    ensures r.Success? ==> GoodState(r.value) && Grows(s0, r.value)
    ensures r.Success? ==> Admitted(s0, loaded, m1, r.value)
    ensures r.Success? ==> ArtifactName(loaded.artifact) in r.value.processed && ArtifactName(loaded.artifact) !in r.value.unprocessed
    ensures r.Success? ==> r.value.processed.Keys == s0.processed.Keys + {ArtifactName(loaded.artifact)}
    ensures r.Success? ==> forall k :: k in s0.unprocessed ==> k in r.value.unprocessed
    ensures r.Success? ==> forall k :: k in s0.processed && k != ArtifactName(loaded.artifact) ==>
      k in r.value.processed && r.value.processed[k] == s0.processed[k]
  {
    var (isTarget, m2) := HasProperty(m1, "tile-merge-target");
    var tile := loaded.tile.(model := m2);
    var ref := |s0.heap|;
    var s1 := s0.(heap := s0.heap + [tile]);
    Allocated(s0, tile);
    var s2 :- if isTarget then Register(s1, ref) else Success(s1);
    var name := ArtifactName(loaded.artifact);
    var s3 := s2.(processed := s2.processed[name := Entry(loaded.artifact, ref)]);
    Recorded(s0, s2, loaded.artifact, ref);
    var s4 :- ParseForExtendedSyntax(s3, tile);
    QueuedGrows(s3, s4);
    GrowsTransitive(s0, s3, s4);
    AcceptFrame(s0, name, Entry(loaded.artifact, ref), tile, s2, s4);
    Success(s4)
  }

  /**
   * What allocating, registering, recording and queueing leave behind: the new entry points at
   * the new tile object, nothing queued before is lost, and every other entry is kept.
   */
  lemma AcceptFrame(s0: State, name: string, entry: Entry, tile: Tile, s2: State, s4: State)
    requires s2 == s0.(heap := s0.heap + [tile], byExecution := s2.byExecution)
    requires Queued(s2.(processed := s2.processed[name := entry]), s4)
    requires name !in s0.unprocessed
    ensures name !in s4.unprocessed && name in s4.processed && s4.processed[name] == entry
    ensures |s0.heap| < |s4.heap| && s4.heap[|s0.heap|] == tile && s4.byExecution == s2.byExecution
    ensures forall k :: k in s0.unprocessed ==> k in s4.unprocessed
    ensures forall k :: k in s0.processed && k != name ==> k in s4.processed && s4.processed[k] == s0.processed[k]
    ensures s4.processed.Keys == s0.processed.Keys + {name}
  {
  }

  /**
   * One turn of the inner `while`: take `key` out of the unprocessed map and load it, then
   * take the loaded tile in. Any failure of the loader ends the run.
   */
  function Step(env: Env, p: Progress, key: string, ghost extra: set<string>): (r: Result<Progress, Exception>)
    requires Good(p) && key in p.state.unprocessed
    ensures LoadModel(env, p.state.unprocessed[key]).Failure? ==> r == Failure(LoadModel(env, p.state.unprocessed[key]).error)
    ensures r.Success? ==> LoadModel(env, p.state.unprocessed[key]).Success?
    ensures r.Success? ==> Turned(p, key, r.value)
    ensures r.Success? && ClosedBy(p.state, HeldKeys(p.held) + extra) ==>
      ClosedBy(r.value.state, HeldKeys(r.value.held) + extra)
  {
    var a := p.state.unprocessed[key];
    Dequeued(p.state, key);
    var loaded :- LoadModel(env, a);
    Take(p, key, loaded, extra)
  }

  /**
   * The tile loaded for `key`. A tile flagged `tile-merge-source` is held aside and its key
   * leaves the queue. Any other tile, if flagged `tile-merge-target`, registers its executions;
   * it is then recorded as processed under its `group:artifact` and its own references are
   * queued. Both flags are removed on the way. No reference is lost: what was settled before
   * (the held merge sources and the bookkeeping keys `extra`) stays settled.
   */
  function Take(p: Progress, key: string, loaded: Loaded, ghost extra: set<string>): (r: Result<Progress, Exception>)
    requires Good(p) && key in p.state.unprocessed
    requires ArtifactName(loaded.artifact) == key
    requires loaded.tile.model.groupId == Some(loaded.artifact.groupId)
    requires loaded.tile.model.artifactId == Some(loaded.artifact.artifactId)
    requires loaded.tile.model.version == Some(loaded.artifact.version)
    ensures r.Success? ==> Turned(p, key, r.value)
    ensures r.Success? && ClosedBy(p.state, HeldKeys(p.held) + extra) ==>
      ClosedBy(r.value.state, HeldKeys(r.value.held) + extra)
  {
    var s0 := p.state.(unprocessed := p.state.unprocessed - {key});
    var (isSource, m1) := HasProperty(loaded.tile.model, "tile-merge-source");
    if isSource then
      var r := Progress(s0, p.held + [loaded.tile.(model := m1)]);
      HoldStep(p, key, loaded, m1, r, extra);
      Success(r)
    else
      Dequeued(p.state, key);
      var s4 :- Accept(s0, loaded, m1);
      AcceptStep(p, key, s0, Progress(s4, p.held));
      AcceptKeepsClosed(p.state, s0, key, s4, HeldKeys(p.held) + extra);
      Success(Progress(s4, p.held))
  }

  /**
   * A merge source is held aside without its flag, and its key leaves the queue; nothing else
   * in the state changes.
   */
  lemma TakeHolds(p: Progress, key: string, loaded: Loaded, extra: set<string>)
    requires Good(p) && key in p.state.unprocessed
    requires ArtifactName(loaded.artifact) == key
    requires loaded.tile.model.groupId == Some(loaded.artifact.groupId)
    requires loaded.tile.model.artifactId == Some(loaded.artifact.artifactId)
    requires loaded.tile.model.version == Some(loaded.artifact.version)
    requires HasProperty(loaded.tile.model, "tile-merge-source").0
    ensures
      var m1 := HasProperty(loaded.tile.model, "tile-merge-source").1;
      Take(p, key, loaded, extra) == Success(Progress(p.state.(unprocessed := p.state.unprocessed - {key}), p.held + [loaded.tile.(model := m1)]))
  {
  }

  /**
   * A tile that is not a merge source is accepted: taking it in fails exactly when accepting it
   * does, and on success its key is processed as an entry for the new tile object, which is the
   * loaded tile without either flag; nothing is held.
   */
  lemma TakeAccepts(p: Progress, key: string, loaded: Loaded, extra: set<string>)
    requires Good(p) && key in p.state.unprocessed
    requires ArtifactName(loaded.artifact) == key
    requires loaded.tile.model.groupId == Some(loaded.artifact.groupId)
    requires loaded.tile.model.artifactId == Some(loaded.artifact.artifactId)
    requires loaded.tile.model.version == Some(loaded.artifact.version)
    requires !HasProperty(loaded.tile.model, "tile-merge-source").0
    ensures
      var r := Take(p, key, loaded, extra);
      var m1 := HasProperty(loaded.tile.model, "tile-merge-source").1;
      var (isTarget, m2) := HasProperty(m1, "tile-merge-target");
      && (r.Failure? <==> (isTarget && m2.build.None?) || !ReferencesParse(loaded.tile.(model := m2)))
      && (r.Success? ==>
            && r.value.held == p.held
            && key in r.value.state.processed && r.value.state.processed[key] == Entry(loaded.artifact, |p.state.heap|)
            && |p.state.heap| < |r.value.state.heap| && r.value.state.heap[|p.state.heap|] == loaded.tile.(model := m2))
  {
    Dequeued(p.state, key);
  }

  /** Taking a key off the queue keeps the invariants; the key stays in the discovery order. */
  lemma Dequeued(s: State, key: string)
    requires GoodState(s) && key in s.unprocessed
    ensures var s0 := s.(unprocessed := s.unprocessed - {key});
      && GoodState(s0) && Grows(s, s0) && key in s0.order && key !in s0.unprocessed
      && ArtifactName(s.unprocessed[key]) == key
      && forall k :: k in s.unprocessed && k != key ==> k in s0.unprocessed
  {
  }

  /**
   * What one turn of the worklist guarantees: the invariants hold, the state grows, `key` is
   * settled (processed, or held as a merge source), the held tiles only extend, and every
   * other queued key stays queued.
   */
  predicate Turned(p: Progress, key: string, r: Progress) {
    && Good(r) && Grows(p.state, r.state) && key !in r.state.unprocessed
    && (key in r.state.processed || key in HeldKeys(r.held))
    && |p.held| <= |r.held| && r.held[..|p.held|] == p.held
    && forall k :: k in p.state.unprocessed && k != key ==> k in r.state.unprocessed
  }

  /** Holding a merge source aside settles its key, keeps the invariants and loses no reference. */
  lemma HoldStep(p: Progress, key: string, loaded: Loaded, m1: Model, r: Progress, extra: set<string>)
    requires Good(p) && key in p.state.unprocessed
    requires ArtifactName(loaded.artifact) == key
    requires m1.groupId == loaded.tile.model.groupId && m1.artifactId == loaded.tile.model.artifactId
    requires loaded.tile.model.groupId == Some(loaded.artifact.groupId)
    requires loaded.tile.model.artifactId == Some(loaded.artifact.artifactId)
    requires "tile-merge-source" !in m1.properties
    requires r == Progress(p.state.(unprocessed := p.state.unprocessed - {key}), p.held + [loaded.tile.(model := m1)])
    ensures Turned(p, key, r)
    ensures ClosedBy(p.state, HeldKeys(p.held) + extra) ==> ClosedBy(r.state, HeldKeys(r.held) + extra)
  {
    Dequeued(p.state, key);
    LoadedKey(loaded, m1, key);
    Held(p.held, loaded.tile.(model := m1));
    HeldKeysGrow(p.held, r.held);
    if ClosedBy(p.state, HeldKeys(p.held) + extra) {
      ClosedByWider(p.state, r.state, HeldKeys(p.held) + extra, HeldKeys(r.held) + extra, key);
    }
  }

  /** Accepting a tile settles its key as processed and keeps the invariants. */
  lemma AcceptStep(p: Progress, key: string, s0: State, r: Progress)
    requires Good(p) && key in p.state.unprocessed
    requires Grows(p.state, s0) && s0.unprocessed == p.state.unprocessed - {key}
    requires GoodState(r.state) && Grows(s0, r.state) && r.held == p.held
    requires key in r.state.processed && key !in r.state.unprocessed
    requires forall k :: k in s0.unprocessed ==> k in r.state.unprocessed
    ensures Turned(p, key, r)
  {
    GrowsTransitive(p.state, s0, r.state);
    assert r.held[..|p.held|] == p.held;
    forall k | k in p.state.unprocessed && k != key
      ensures k in r.state.unprocessed
    {
      assert k in s0.unprocessed;
    }
  }


  /** A loaded tile, flags removed or not, names the key its artifact was queued under. */
  lemma LoadedKey(loaded: Loaded, m1: Model, key: string)
    requires ArtifactName(loaded.artifact) == key
    requires m1.groupId == loaded.tile.model.groupId && m1.artifactId == loaded.tile.model.artifactId
    requires loaded.tile.model.groupId == Some(loaded.artifact.groupId)
    requires loaded.tile.model.artifactId == Some(loaded.artifact.artifactId)
    ensures FragmentId(m1) == key
  {
  }

  /** Holding one more flag-free tile keeps the held tiles flag-free and extends them. */
  lemma Held(held: seq<Tile>, tile: Tile)
    requires FlagFree(held) && "tile-merge-source" !in tile.model.properties
    ensures FlagFree(held + [tile])
    ensures (held + [tile])[..|held|] == held
    ensures HeldKeys(held + [tile]) == HeldKeys(held) + {FragmentId(tile.model)}
  {
    var h := held + [tile];
    assert forall i :: 0 <= i < |held| ==> h[i] == held[i];
    assert h[|held|] == tile;
    forall k | k in HeldKeys(h)
      ensures k in HeldKeys(held) + {FragmentId(tile.model)}
    {
      var i :| 0 <= i < |h| && FragmentId(h[i].model) == k;
      if i < |held| {
        assert FragmentId(held[i].model) in HeldKeys(held);
      }
    }
  }

  /** One instance of `ClosedBy`: a reference of a processed tile is processed, queued or settled. */
  lemma ClosedAt(s: State, settled: set<string>, k: string, x: string)
    requires ClosedBy(s, settled)
    requires k in s.processed && s.processed[k].ref < |s.heap| && x in ReferenceKeys(s.heap[s.processed[k].ref])
    ensures x in s.processed || x in s.unprocessed || x in settled
  {
  }

  /** Taking `key` off the queue keeps the closure when `key` becomes settled. */
  lemma ClosedByWider(s: State, s0: State, settled: set<string>, wider: set<string>, key: string)
    requires s0 == s.(unprocessed := s.unprocessed - {key})
    requires ClosedBy(s, settled) && settled <= wider && key in wider
    ensures ClosedBy(s0, wider)
  {
  }

  /** Accepting the tile queued under `key` keeps the closure. */
  lemma AcceptKeepsClosed(s: State, s0: State, key: string, r: State, settled: set<string>)
    requires s0.processed == s.processed && s0.heap == s.heap && s0.unprocessed == s.unprocessed - {key}
    requires Bound(s0) && Grows(s0, r)
    requires r.processed.Keys == s0.processed.Keys + {key} && r.processed[key].ref < |r.heap|
    requires ReferenceKeys(r.heap[r.processed[key].ref]) <= r.unprocessed.Keys + r.processed.Keys
    requires forall k :: k in s0.processed && k != key ==> k in r.processed && r.processed[k] == s0.processed[k]
    requires forall k :: k in s0.unprocessed ==> k in r.unprocessed
    ensures ClosedBy(s, settled) ==> ClosedBy(r, settled)
  {
    if ClosedBy(s, settled) {
      forall k, x | k in r.processed && r.processed[k].ref < |r.heap| && x in ReferenceKeys(r.heap[r.processed[k].ref])
        ensures x in r.processed || x in r.unprocessed || x in settled
      {
        if k != key {
          assert s.processed[k].ref < |s.heap| && r.heap[s.processed[k].ref] == s.heap[s.processed[k].ref];
          ClosedAt(s, settled, k, x);
          if x in s.unprocessed && x != key {
            assert x in s0.unprocessed;
          }
        }
      }
    }
  }


  /**
   * The inner `while`: load until nothing is left unprocessed. No reference is lost on the
   * way: whatever was settled on entry (the held merge sources and the keys in `extra`, a
   * bookkeeping set with no run-time counterpart) stays settled.
   */
  function Drain(env: Env, p: Progress, fuel: nat, ghost extra: set<string>): (r: Result<Progress, Exception>)
    requires ValidEnv(env) && Good(p)
    ensures r.Success? ==> Settled(p, p.state.unprocessed.Keys, r.value)
    ensures r.Success? && ClosedBy(p.state, HeldKeys(p.held) + extra) ==>
      ClosedBy(r.value.state, HeldKeys(r.value.held) + extra)
    ensures p.state.unprocessed != map[] && fuel == 0 ==> r == Failure(OutOfFuel)
    decreases fuel
  {
    if p.state.unprocessed == map[] then Success(p)
    else if fuel == 0 then Failure(OutOfFuel)
    else
      var key := Next(env, p.state.unprocessed);
      var p1 :- Step(env, p, key, extra);
      var r := Drain(env, p1, fuel - 1, extra);
      if r.Success? then
        Settles(p, p1, r.value, key);
        r
      else
        r
  }

  /** The key a `HashMap` iterator hands out first. */
  function Next(env: Env, m: map<string, Artifact>): (r: string)
    requires ValidEnv(env) && m != map[]
    ensures r in m
  {
    assert m.Keys != {} by {
      var k :| k in m;
    }
    env.pick(m.Keys)
  }

  /**
   * What a finished drain guarantees: the invariants hold, the state grows, nothing is left
   * unprocessed, the held tiles only extend, and each of `keys` is processed or held.
   */
  predicate Settled(p: Progress, keys: set<string>, r: Progress) {
    && Good(r) && Grows(p.state, r.state) && r.state.unprocessed == map[]
    && |p.held| <= |r.held| && r.held[..|p.held|] == p.held
    && forall k :: k in keys ==> k in r.state.processed || k in HeldKeys(r.held)
  }

  /**
   * One turn and the rest of the drain compose: the state grows, the held tiles extend, and
   * every key queued before the turn ends up processed or held.
   */
  lemma Settles(p: Progress, p1: Progress, r: Progress, key: string)
    requires Turned(p, key, p1) && Settled(p1, p1.state.unprocessed.Keys, r)
    ensures Settled(p, p.state.unprocessed.Keys, r)
  {
    GrowsTransitive(p.state, p1.state, r.state);
    assert r.held[..|p1.held|][..|p.held|] == r.held[..|p.held|];
    HeldKeysGrow(p1.held, r.held);
  }

  /**
   * Draining one root and then the remaining roots compose: every root of `remaining` ends up
   * processed or held.
   */
  lemma RootSettles(p: Progress, s1: State, p1: Progress, r: Progress, root: string, remaining: set<string>)
    requires s1 == p.state.(unprocessed := s1.unprocessed) && s1.unprocessed.Keys == {root}
    requires root in remaining
    requires Settled(Progress(s1, p.held), s1.unprocessed.Keys, p1) && Settled(p1, remaining - {root}, r)
    ensures Settled(p, remaining, r)
  {
    GrowsTransitive(p.state, p1.state, r.state);
    assert r.held[..|p1.held|][..|p.held|] == r.held[..|p.held|];
    HeldKeysGrow(p1.held, r.held);
  }

  /**
   * The outer `for` over the root tiles (the unprocessed map as it was on entry): each root
   * is put back into the empty unprocessed map and drained, even if an earlier root's
   * traversal already processed it. Every remaining root ends up processed or held, and if
   * the roots still to run were the only unsettled references on entry, none is left at the
   * end.
   */
  function Roots(env: Env, p: Progress, roots: map<string, Artifact>, remaining: set<string>, fuel: nat)
    : (r: Result<Progress, Exception>)
    requires ValidEnv(env) && Good(p) && p.state.unprocessed == map[]
    requires remaining <= roots.Keys
    requires Rooted(roots, p.state)
    ensures r.Success? ==> Settled(p, remaining, r.value)
    ensures r.Success? && ClosedBy(p.state, HeldKeys(p.held) + remaining) ==> ClosedBy(r.value.state, HeldKeys(r.value.held))
    decreases remaining
  {
    if remaining == {} then
      assert HeldKeys(p.held) + remaining == HeldKeys(p.held);
      Success(p)
    else
      var root := env.pick(remaining);
      var s1 := p.state.(unprocessed := map[root := roots[root]]);
      Requeued(p.state, s1, HeldKeys(p.held), remaining, root);
      RequeuedGood(p, s1, root, roots[root]);
      var p1 :- Drain(env, Progress(s1, p.held), fuel, remaining - {root});
      StillRooted(roots, p.state, p1.state);
      var r := Roots(env, p1, roots, remaining - {root}, fuel);
      if r.Success? then
        RootSettles(p, s1, p1, r.value, root, remaining);
        r
      else
        r
  }

  /** Every root is queued under its own name and is already in the discovery order. */
  predicate Rooted(roots: map<string, Artifact>, s: State) {
    forall k :: k in roots ==> ArtifactName(roots[k]) == k && k in s.order
  }

  /** The discovery order only grows, so the roots stay in it. */
  lemma StillRooted(roots: map<string, Artifact>, s: State, t: State)
    requires Rooted(roots, s) && Grows(s, t)
    ensures Rooted(roots, t)
  {
    forall k | k in roots
      ensures k in t.order
    {
      assert k in t.order[..|s.order|];
    }
  }

  /** Queueing one root moves it from the settled keys to the queued ones. */
  lemma Requeued(s: State, s1: State, held: set<string>, remaining: set<string>, root: string)
    requires s.unprocessed == map[] && root in remaining && s1.unprocessed.Keys == {root}
    requires s1 == s.(unprocessed := s1.unprocessed)
    ensures ClosedBy(s, held + remaining) ==> ClosedBy(s1, held + (remaining - {root}))
  {
    if ClosedBy(s, held + remaining) {
      forall k, x | k in s1.processed && s1.processed[k].ref < |s1.heap| && x in ReferenceKeys(s1.heap[s1.processed[k].ref])
        ensures x in s1.processed || x in s1.unprocessed || x in held + (remaining - {root})
      {
        assert x in s.processed || x in s.unprocessed || x in held + remaining;
        if x == root {
          assert x in s1.unprocessed.Keys;
        }
      }
    }
  }

  /** Queueing a root already in the discovery order keeps the invariants. */
  lemma RequeuedGood(p: Progress, s1: State, root: string, a: Artifact)
    requires Good(p) && p.state.unprocessed == map[]
    requires ArtifactName(a) == root && root in p.state.order
    requires s1 == p.state.(unprocessed := map[root := a])
    ensures Good(Progress(s1, p.held))
  {
  }

  /** Merging keeps every invariant: only properties and execution configurations change. */
  lemma MergeKeepsGood(s: State, held: seq<Tile>, fragment: Tile, t: State, targets: set<nat>)
    requires Good(Progress(s, held)) && "tile-merge-source" !in fragment.model.properties
    requires t == s.(heap := t.heap) && Merged(s.heap, t.heap, fragment.model, targets)
    ensures Good(Progress(t, held))
  {
    forall i | 0 <= i < |s.heap|
      ensures t.heap[i].model.groupId == s.heap[i].model.groupId
      ensures t.heap[i].model.artifactId == s.heap[i].model.artifactId
      ensures t.heap[i].model.version == s.heap[i].model.version
    {
      assert MergedOnly(s.heap[i], t.heap[i]);
    }
  }

  /** Plugins that differ only in execution configurations declare the same tiles configuration. */
  lemma {:induction false} SameShapeTilesConfiguration(ps1: seq<Plugin>, ps2: seq<Plugin>)
    requires SamePluginShape(ps1, ps2)
    ensures TilesConfiguration(ps1) == TilesConfiguration(ps2)
  {
    if ps1 != [] {
      assert ps1[0].(executions := []) == ps2[0].(executions := []);
      forall i | 0 <= i < |ps1[1..]|
        ensures ps1[1..][i].(executions := []) == ps2[1..][i].(executions := [])
        ensures |ps1[1..][i].executions| == |ps2[1..][i].executions|
        ensures forall j :: 0 <= j < |ps1[1..][i].executions| ==>
          SameExecutionShape(ps1[1..][i].executions[j], ps2[1..][i].executions[j])
      {
        assert ps1[1..][i] == ps1[i + 1] && ps2[1..][i] == ps2[i + 1];
      }
      SameShapeTilesConfiguration(ps1[1..], ps2[1..]);
    }
  }

  /** A merged tile references the same tiles as before the merge. */
  lemma MergedOnlyReferences(before: Tile, after: Tile)
    requires MergedOnly(before, after)
    ensures ReferenceKeys(after) == ReferenceKeys(before)
  {
    assert OwnTexts(after) == OwnTexts(before);
    if before.model.build.Some? {
      SameShapeTilesConfiguration(before.model.build.value.plugins, after.model.build.value.plugins);
    }
    assert DeclaredTiles(after.model) == DeclaredTiles(before.model);
  }

  /** Merging one fragment keeps the references of every tile object. */
  lemma MergedReferences(h0: seq<Tile>, h1: seq<Tile>, fragment: Model, targets: set<nat>)
    requires Merged(h0, h1, fragment, targets)
    ensures forall i :: 0 <= i < |h0| ==> ReferenceKeys(h1[i]) == ReferenceKeys(h0[i])
  {
    forall i | 0 <= i < |h0|
      ensures ReferenceKeys(h1[i]) == ReferenceKeys(h0[i])
    {
      MergedOnlyReferences(h0[i], h1[i]);
    }
  }

  /**
   * The final `for` over the held merge sources, in the order they were loaded. Merging touches
   * only tile objects, and no tile object gains or loses a reference.
   */
  function MergeAll(p: Progress, fragments: seq<Tile>): (r: Result<State, Exception>)
    requires Good(p) && FlagFree(fragments)
    ensures fragments == [] ==> r == Success(p.state)
    ensures r.Success? ==> Good(Progress(r.value, p.held))
    ensures r.Success? ==> r.value == p.state.(heap := r.value.heap) && |r.value.heap| == |p.state.heap|
    ensures r.Success? ==> forall i :: 0 <= i < |p.state.heap| ==> ReferenceKeys(r.value.heap[i]) == ReferenceKeys(p.state.heap[i])
    decreases |fragments|
  {
    if fragments == [] then Success(p.state)
    else
      var s1 :- MergeTileIntoTarget(p.state, fragments[0]);
      var targets := TargetsOf(p.state.byExecution, Sites(fragments[0].model.build.value.plugins));
      MergeKeepsGood(p.state, p.held, fragments[0], s1, targets);
      MergedReferences(p.state.heap, s1.heap, fragments[0].model, targets);
      FlagFreeTail(fragments);
      MergeAll(Progress(s1, p.held), fragments[1..])
  }

  lemma FlagFreeTail(tiles: seq<Tile>)
    requires FlagFree(tiles) && tiles != []
    ensures FlagFree(tiles[1..])
  {
    forall i | 0 <= i < |tiles[1..]|
      ensures "tile-merge-source" !in tiles[1..][i].model.properties
    {
      assert tiles[1..][i] == tiles[i + 1];
    }
  }

  /** Merging one more fragment is merging the others, then that fragment: a left fold. */
  lemma {:induction false} MergeAllSnoc(p: Progress, fragments: seq<Tile>, last: Tile)
    requires Good(p) && FlagFree(fragments + [last])
    ensures FlagFree(fragments)
    ensures MergeAll(p, fragments + [last]) ==
      if MergeAll(p, fragments).Failure? then MergeAll(p, fragments)
      else MergeTileIntoTarget(MergeAll(p, fragments).value, last)
    decreases |fragments|
  {
    var all := fragments + [last];
    assert forall i :: 0 <= i < |fragments| ==> all[i] == fragments[i];
    if fragments != [] {
      assert all[0] == fragments[0] && all[1..] == fragments[1..] + [last];
      FlagFreeTail(all);
      match MergeTileIntoTarget(p.state, fragments[0])
      case Failure(_) =>
      case Success(s1) =>
        var targets := TargetsOf(p.state.byExecution, Sites(fragments[0].model.build.value.plugins));
        MergeKeepsGood(p.state, p.held, fragments[0], s1, targets);
        MergeAllSnoc(Progress(s1, p.held), fragments[1..], last);
    } else {
      assert all[1..] == [];
    }
  }

  /** Merging keeps the closure: no reference changes, no key moves. */
  lemma MergedKeepsClosed(s: State, t: State, settled: set<string>)
    requires t == s.(heap := t.heap) && |t.heap| == |s.heap|
    requires forall i :: 0 <= i < |s.heap| ==> ReferenceKeys(t.heap[i]) == ReferenceKeys(s.heap[i])
    ensures ClosedBy(s, settled) ==> ClosedBy(t, settled)
  {
  }

  /** Taking every root off the queue leaves the roots as the only unsettled references. */
  lemma Unqueued(s: State, s0: State)
    requires Good(Progress(s, []))
    requires s0 == s.(unprocessed := s0.unprocessed) && s0.unprocessed == map[]
    ensures Good(Progress(s0, []))
    ensures Rooted(s.unprocessed, s0)
    ensures ClosedBy(s, {}) ==> ClosedBy(s0, HeldKeys([]) + s.unprocessed.Keys)
  {
    assert HeldKeys([]) == {};
    assert HeldKeys([]) + s.unprocessed.Keys == s.unprocessed.Keys;
    UnqueuedRoots(s, s0);
  }

  lemma UnqueuedRoots(s: State, s0: State)
    requires s0.processed == s.processed && s0.heap == s.heap && s0.unprocessed == map[]
    ensures ClosedBy(s, {}) ==> ClosedBy(s0, s.unprocessed.Keys)
  {
    if ClosedBy(s, {}) {
      forall k, x | k in s0.processed && s0.processed[k].ref < |s0.heap| && x in ReferenceKeys(s0.heap[s0.processed[k].ref])
        ensures x in s0.processed || x in s0.unprocessed || x in s.unprocessed.Keys
      {
        ClosedAt(s, {}, k, x);
      }
    }
  }

  /**
   * `loadAllDiscoveredTiles`: drain from every root, merge the held merge sources into their
   * targets, then prune the discovery order. On success nothing is left unprocessed, the
   * discovery order names exactly the processed tiles, and every root is processed or held.
   * No reference is lost: if every reference of every processed tile was processed or queued
   * on entry, then afterwards every reference of every processed tile is processed or one of
   * the merge sources.
   */
  function LoadAllDiscoveredTiles(env: Env, s: State, fuel: nat): (r: Result<Progress, Exception>)
    requires ValidEnv(env) && Good(Progress(s, []))
    ensures r.Success? ==> Discovered(s, r.value)
    ensures r.Success? && ClosedBy(s, {}) ==> ClosedBy(r.value.state, HeldKeys(r.value.held))
  {
    var roots := s.unprocessed;
    var s0 := s.(unprocessed := map[]);
    Unqueued(s, s0);
    var p :- Roots(env, Progress(s0, []), roots, roots.Keys, fuel);
    var s1 :- MergeAll(Progress(p.state, []), p.held);
    Finishes(s, s0, p, s1);
    Success(Progress(EnsureAllTilesDiscoveredAreAccountedFor(s1), p.held))
  }

  /**
   * What loading every discovered tile guarantees about the state `s` it started from: the
   * invariants hold, nothing is left unprocessed, the discovery order names exactly the
   * processed tiles, what was processed stays processed, every root is processed or held, and
   * the final state is the drained state with the held merge sources merged in.
   */
  ghost predicate Discovered(s: State, r: Progress) {
    && Good(r) && r.state.unprocessed == map[]
    && (forall i :: 0 <= i < |r.state.order| ==> r.state.order[i] in r.state.processed)
    && (forall k :: k in r.state.processed ==> k in r.state.order)
    && s.processed.Keys <= r.state.processed.Keys
    && (forall k :: k in s.unprocessed ==> k in r.state.processed || k in HeldKeys(r.held))
    && exists d: State :: Settled(Progress(s.(unprocessed := map[]), []), s.unprocessed.Keys, Progress(d, r.held))
                && MergedHeld(d, r.held, r.state)
  }

  /**
   * `final` is the drained state `d` after every held merge source has been merged into its
   * targets, in the order the sources were loaded, and the discovery order pruned.
   */
  predicate MergedHeld(d: State, held: seq<Tile>, final: State) {
    && Good(Progress(d, held))
    && MergeAll(Progress(d, []), held).Success?
    && final == EnsureAllTilesDiscoveredAreAccountedFor(MergeAll(Progress(d, []), held).value)
  }

  /** Draining every root, merging and pruning compose into `Discovered`, closure included. */
  lemma Finishes(s: State, s0: State, p: Progress, s1: State)
    requires s0 == s.(unprocessed := s0.unprocessed) && s0.unprocessed == map[]
    requires Settled(Progress(s0, []), s.unprocessed.Keys, p)
    requires MergeAll(Progress(p.state, []), p.held) == Success(s1)
    requires ClosedBy(s, {}) ==> ClosedBy(p.state, HeldKeys(p.held))
    ensures Discovered(s, Progress(EnsureAllTilesDiscoveredAreAccountedFor(s1), p.held))
    ensures ClosedBy(s, {}) ==> ClosedBy(EnsureAllTilesDiscoveredAreAccountedFor(s1), HeldKeys(p.held))
  {
    MergedKeepsClosed(p.state, s1, HeldKeys(p.held));
    PruneKeepsClosed(s1, HeldKeys(p.held));
    FinishesDiscovered(s, s0, p, s1);
  }

  lemma FinishesDiscovered(s: State, s0: State, p: Progress, s1: State)
    requires s0 == s.(unprocessed := map[])
    requires Settled(Progress(s0, []), s.unprocessed.Keys, p)
    requires MergeAll(Progress(p.state, []), p.held) == Success(s1)
    ensures Discovered(s, Progress(EnsureAllTilesDiscoveredAreAccountedFor(s1), p.held))
  {
    PruneKeepsGood(s1);
    DrainedThenMerged(s, s0, p, s1);
  }

  /** The drained progress `p` is the witness: its state, merged and pruned, is the result. */
  lemma DrainedThenMerged(s: State, s0: State, p: Progress, s1: State)
    requires s0 == s.(unprocessed := map[])
    requires Settled(Progress(s0, []), s.unprocessed.Keys, p)
    requires MergeAll(Progress(p.state, []), p.held) == Success(s1)
    ensures exists d: State :: Settled(Progress(s.(unprocessed := map[]), []), s.unprocessed.Keys, Progress(d, p.held))
                            && MergedHeld(d, p.held, EnsureAllTilesDiscoveredAreAccountedFor(s1))
  {
    assert Progress(p.state, p.held) == p;
    assert MergedHeld(p.state, p.held, EnsureAllTilesDiscoveredAreAccountedFor(s1));
  }

  /** With nothing queued there is nothing to load or merge: the state keeps its processed tiles. */
  lemma NothingQueued(env: Env, s: State, fuel: nat)
    requires ValidEnv(env) && Good(Progress(s, []))
    ensures s.unprocessed == map[] ==>
      var r := LoadAllDiscoveredTiles(env, s, fuel);
      && r.Success? && r.value.held == []
      && r.value.state.processed == s.processed && r.value.state.applyBefore == s.applyBefore
  {
  }

  /** Pruning the discovery order moves no key and changes no tile object. */
  lemma PruneKeepsClosed(s: State, settled: set<string>)
    ensures ClosedBy(s, settled) ==> ClosedBy(EnsureAllTilesDiscoveredAreAccountedFor(s), settled)
  {
    var t := EnsureAllTilesDiscoveredAreAccountedFor(s);
    assert t.(order := []) == s.(order := []);
  }

  /** With nothing processed there is nothing to lose. */
  lemma NothingProcessed(s: State)
    requires s.processed == map[]
    ensures ClosedBy(s, {})
  {
  }

  /** Pruning a drained state keeps its invariants, and every processed key stays in the order. */
  lemma PruneKeepsGood(s: State)
    requires GoodState(s) && s.unprocessed == map[]
    ensures var t := EnsureAllTilesDiscoveredAreAccountedFor(s);
      && GoodState(t) && t.unprocessed == map[] && t.processed == s.processed
      && (forall k :: k in t.processed ==> k in t.order)
  {
    var t := EnsureAllTilesDiscoveredAreAccountedFor(s);
    assert t.(order := []) == s.(order := []);
    forall k | k in t.processed
      ensures k in t.order
    {
      var i :| 0 <= i < |s.order| && s.order[i] == k;
    }
  }

  /** The keys of a `HashMap` in its iteration order: each key once. */
  function Enumerate(keys: set<string>, pick: set<string> -> string): (r: seq<string>)
    requires forall ks: set<string> :: ks != {} ==> pick(ks) in ks
    ensures |r| == |keys| && NoDuplicates(r)
    ensures forall k :: k in keys <==> k in r
    decreases keys
  {
    if keys == {} then []
    else
      var k := pick(keys);
      [k] + Enumerate(keys - {k}, pick)
  }

  /** `processedTiles.values()`: the tile objects of the processed entries, in map order. */
  function ProcessedTiles(env: Env, s: State): (r: seq<Tile>)
    requires ValidEnv(env) && Bound(s)
    ensures |r| == |s.processed|
    ensures forall i :: 0 <= i < |r| ==> HasIdentity(r[i].model)
    ensures forall k :: k in s.processed ==> s.heap[s.processed[k].ref] in r
  {
    var keys := Enumerate(s.processed.Keys, env.pick);
    assert |s.processed.Keys| == |s.processed|;
    TilesOfCovers(s, keys);
    TilesOf(s, keys)
  }

  /** Every tile whose key is listed is among the tiles the keys name. */
  lemma TilesOfCovers(s: State, keys: seq<string>)
    requires Bound(s)
    requires forall i :: 0 <= i < |keys| ==> keys[i] in s.processed
    requires forall k :: k in s.processed ==> k in keys
    ensures forall k :: k in s.processed ==> s.heap[s.processed[k].ref] in TilesOf(s, keys)
  {
    var r := TilesOf(s, keys);
    forall k | k in s.processed
      ensures s.heap[s.processed[k].ref] in r
    {
      var i :| 0 <= i < |keys| && keys[i] == k;
      assert r[i] == s.heap[s.processed[k].ref];
    }
  }

  /** The tile objects that `keys` name, in the same order. */
  function TilesOf(s: State, keys: seq<string>): (r: seq<Tile>)
    requires Bound(s)
    requires forall i :: 0 <= i < |keys| ==> keys[i] in s.processed
    ensures |r| == |keys|
    ensures forall i :: 0 <= i < |r| ==> r[i] == s.heap[s.processed[keys[i]].ref] && HasIdentity(r[i].model)
  {
    seq(|keys|, i requires 0 <= i < |keys| => s.heap[s.processed[keys[i]].ref])
  }

  /**
   * `orchestrateMerge` up to the model build: clear the discovery state, read the project's own
   * tiles declaration, load everything it reaches, and hand the processed tiles to the build.
   * Every tile the project declares ends up processed or held as a merge source.
   */
  function OrchestrateMerge(env: Env, s: State, project: Model, fuel: nat): (r: Result<(Progress, seq<Tile>), Exception>)
    requires ValidEnv(env)
    ensures r.Success? ==> Orchestrated(project, r.value.0, r.value.1)
    ensures r.Success? ==>
      ParseConfiguration(Cleared(s), project).Success? && Discovered(ParseConfiguration(Cleared(s), project).value, r.value.0)
    ensures DeclaredTiles(project).None? && s.applyBefore.None? ==>
      r.Success? && r.value.1 == [] && r.value.0.held == [] && r.value.0.state.applyBefore.None?
  {
    var s1 :- ParseConfiguration(Cleared(s), project);
    Parsed(env, s, project, s1, fuel);
    var p :- LoadAllDiscoveredTiles(env, s1, fuel);
    Orchestrates(env, project, s1, p);
    Success((p, ProcessedTiles(env, p.state)))
  }

  /**
   * What orchestrating `project` guarantees about the final progress `p` and the tiles `tiles`
   * handed to the build: the invariants hold, nothing is left unprocessed, the discovery order
   * names exactly the processed tiles, every tile the project declares is processed or held,
   * every reference of every processed tile is processed or held, the final state is a drained
   * state in which every declared tile was processed or held, with the held merge sources
   * merged in, and `tiles` holds one tile with an identity per processed key, each processed
   * tile among them.
   */
  ghost predicate Orchestrated(project: Model, p: Progress, tiles: seq<Tile>) {
    && Good(p) && p.state.unprocessed == map[]
    && (forall i :: 0 <= i < |p.state.order| ==> p.state.order[i] in p.state.processed)
    && (forall k :: k in p.state.processed ==> k in p.state.order)
    && KeysOf(DeclaredTexts(project)) <= p.state.processed.Keys + HeldKeys(p.held)
    && ClosedBy(p.state, HeldKeys(p.held))
    && (exists d: State :: && d.unprocessed == map[]
                     && KeysOf(DeclaredTexts(project)) <= d.processed.Keys + HeldKeys(p.held)
                     && MergedHeld(d, p.held, p.state))
    && |tiles| == |p.state.processed|
    && (forall i :: 0 <= i < |tiles| ==> HasIdentity(tiles[i].model))
    && (forall k :: k in p.state.processed ==> p.state.heap[p.state.processed[k].ref] in tiles)
  }

  /** Loading from the project's own declaration establishes `Orchestrated`. */
  lemma Orchestrates(env: Env, project: Model, s1: State, p: Progress)
    requires ValidEnv(env)
    requires KeysOf(DeclaredTexts(project)) <= s1.unprocessed.Keys
    requires Discovered(s1, p) && ClosedBy(s1, {})
    requires ClosedBy(s1, {}) ==> ClosedBy(p.state, HeldKeys(p.held))
    ensures Orchestrated(project, p, ProcessedTiles(env, p.state))
  {
    var d :| Settled(Progress(s1.(unprocessed := map[]), []), s1.unprocessed.Keys, Progress(d, p.held))
          && MergedHeld(d, p.held, p.state);
    DrainedDeclared(project, s1, d, p.held);
  }

  /** The drained state behind a discovery from the project's declaration settles every declared tile. */
  lemma DrainedDeclared(project: Model, s1: State, d: State, held: seq<Tile>)
    requires KeysOf(DeclaredTexts(project)) <= s1.unprocessed.Keys
    requires Settled(Progress(s1.(unprocessed := map[]), []), s1.unprocessed.Keys, Progress(d, held))
    ensures d.unprocessed == map[] && KeysOf(DeclaredTexts(project)) <= d.processed.Keys + HeldKeys(held)
  {
  }

  /**
   * After clearing and reading the project's declaration the invariants hold, nothing is
   * processed, every declared tile is queued, and a project without a declaration queues
   * nothing, so loading succeeds with nothing processed or held.
   */
  lemma Parsed(env: Env, s: State, project: Model, s1: State, fuel: nat)
    requires ValidEnv(env) && ParseConfiguration(Cleared(s), project) == Success(s1)
    ensures Good(Progress(s1, [])) && ClosedBy(s1, {})
    ensures KeysOf(DeclaredTexts(project)) <= s1.unprocessed.Keys
    ensures DeclaredTiles(project).None? ==>
      var r := LoadAllDiscoveredTiles(env, s1, fuel);
      && r.Success? && r.value.held == []
      && r.value.state.processed == map[] && r.value.state.applyBefore == s.applyBefore
  {
    var s0 := Cleared(s);
    QueuedGrows(s0, s1);
    ProjectKeysQueued(s0, project, s1);
    NothingProcessed(s1);
    NothingQueued(env, s1, fuel);
  }

  /** On a cleared state, every tile the project declares is queued. */
  lemma ProjectKeysQueued(s0: State, project: Model, s1: State)
    requires s0.processed == map[]
    requires ParseConfiguration(s0, project) == Success(s1)
    ensures KeysOf(DeclaredTexts(project)) <= s1.unprocessed.Keys
  {
    match DeclaredTiles(project)
    case None =>
      assert DeclaredTexts(project) == [];
    case Some(tiles) =>
      var texts := DeclaredTexts(project);
      assert s1.processed == map[];
      forall i | 0 <= i < |texts|
        ensures Parses(texts[i]) && KeyOf(texts[i]) in s1.unprocessed.Keys
      {
        assert texts[i] == tiles.children[i].value;
      }
      KeysOfCovered(texts, s1.unprocessed.Keys);
  }
}
