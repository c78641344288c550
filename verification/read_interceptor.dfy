/**
 * The model-processor wrapper the tiles build installs around Maven's model builder: on every
 * descriptor read it decides whether this is where the tiles go into the parent chain, whether
 * to hand back an already-computed tile model instead, and whether to evict the read model's
 * parent from the model cache so that it is read again through the wrapper. After the build a
 * named injection target that was never met fails the build.
 *
 * The code decides "named mode" with `parseBoolean(applyBefore)`, which is false for every
 * `group:artifact` name, so the decision is given twice: as written (`…AsWritten`) and as the
 * comments at TilesMavenLifecycleParticipant.java:562 and 592-595 and the error at 615
 * describe it (`…Intended`, named mode whenever a target other than the default "false" is
 * configured). Likewise the project-level test dereferences a `null` version before
 * the check that was meant to accept it.
 */
module ReadInterceptor {
  import opened Wrappers
  import opened Exceptions
  import opened JavaStrings
  import opened MavenModel
  import opened GavUtil
  import opened NotDefaultModelCache
  import opened TileModel
  import opened ParentChain

  /** The identity of the project being built, as `MavenProject` reports it. */
  datatype ProjectId = ProjectId(groupId: Option<string>, artifactId: Option<string>, version: Option<string>, packaging: string)

  /** The version an undefined CI-friendly property evaluates to. */
  const UndefinedVersion := "0-SNAPSHOT"

  /** What a read does: splice the tiles in here, hand back the tile at this index, or nothing. */
  datatype Decision = Inject | Substitute(index: nat) | Pass

  /**
   * The wrapper's state across the reads of one build: the injected flag, the tile models (the
   * splice re-parents the shared `TileModel` objects in place, so later reads see the spliced
   * chain), and the model cache.
   */
  datatype Interception = Interception(injected: bool, tiles: seq<Tile>, cache: map<Key, CachedModel>)

  /** Whether the read model's artifact and (inherited) group are the project's. */
  predicate SameGa(m: Model, project: ProjectId) {
    m.artifactId.Some? && m.artifactId == project.artifactId && RealGroupId(m).Some? && RealGroupId(m) == project.groupId
  }

  /** Whether an evaluated version counts as the project's. */
  predicate VersionMatches(evaluated: string, project: ProjectId) {
    Some(evaluated) == project.version || evaluated == UndefinedVersion
  }

  /**
   * The project-level test as written: artifact, then inherited group, then evaluated inherited
   * version, then packaging, each compared with `equals` in that order. A missing artifact id,
   * or a missing group or evaluated version reached by the comparison, is dereferenced; the
   * evaluated version is missing when the version is, or when the evaluator yields `null`.
   */
  function IsProjectModelAsWritten(m: Model, project: ProjectId, eval: string -> Option<string>): (r: Result<bool, Exception>)
    ensures r.Failure? ==> r.error.NullPointer?
    ensures r.Failure? <==>
      || m.artifactId.None?
      || (m.artifactId == project.artifactId && RealGroupId(m).None?)
      || (m.artifactId == project.artifactId && RealGroupId(m) == project.groupId && Evaluate(RealVersion(m), eval).None?)
    ensures r.Success? ==>
      (r.value <==> SameGa(m, project) && VersionMatches(Evaluate(RealVersion(m), eval).value, project) && m.packaging == project.packaging)
  {
    if m.artifactId.None? then Failure(NullPointer("artifactId"))
    else if m.artifactId != project.artifactId then Success(false)
    else if RealGroupId(m).None? then Failure(NullPointer("groupId"))
    else if RealGroupId(m) != project.groupId then Success(false)
    else
      var version := Evaluate(RealVersion(m), eval);
      if version.None? then Failure(NullPointer("version"))
      else Success(VersionMatches(version.value, project) && m.packaging == project.packaging)
  }

  /** The project-level test with the `null` evaluated version accepted, as the code's last disjunct means. */
  function IsProjectModelIntended(m: Model, project: ProjectId, eval: string -> Option<string>): (r: Result<bool, Exception>)
    ensures r.Failure? <==> m.artifactId.None? || (m.artifactId == project.artifactId && RealGroupId(m).None?)
    ensures r.Success? ==>
      (r.value <==>
        SameGa(m, project) && m.packaging == project.packaging
        && (Evaluate(RealVersion(m), eval).None? || VersionMatches(Evaluate(RealVersion(m), eval).value, project)))
  {
    if m.artifactId.None? then Failure(NullPointer("artifactId"))
    else if m.artifactId != project.artifactId then Success(false)
    else if RealGroupId(m).None? then Failure(NullPointer("groupId"))
    else if RealGroupId(m) != project.groupId then Success(false)
    else
      var version := Evaluate(RealVersion(m), eval);
      Success((version.None? || VersionMatches(version.value, project)) && m.packaging == project.packaging)
  }

  /**
   * Whether tile `t` is the one being read: artifact and inherited group compared with `==`
   * (object identity of Java strings, given as `sameRef`), then the inherited versions with
   * `equals`, which dereferences the read model's version.
   */
  function IsTileModel(m: Model, t: Tile, sameRef: (Option<string>, Option<string>) -> bool): (r: Result<bool, Exception>)
    ensures r.Failure? <==> sameRef(m.artifactId, t.model.artifactId) && sameRef(RealGroupId(m), RealGroupId(t.model)) && RealVersion(m).None?
    ensures r == Success(true) <==>
      sameRef(m.artifactId, t.model.artifactId) && sameRef(RealGroupId(m), RealGroupId(t.model))
      && RealVersion(m).Some? && RealVersion(m) == RealVersion(t.model)
  {
    if !(sameRef(m.artifactId, t.model.artifactId) && sameRef(RealGroupId(m), RealGroupId(t.model))) then Success(false)
    else if RealVersion(m).None? then Failure(NullPointer("version"))
    else Success(RealVersion(m) == RealVersion(t.model))
  }

  /**
   * Java `==` on strings implies equal contents, so when `sameRef` is a reference identity a
   * tile found by `IsTileModel` has the read model's artifact, group and version.
   */
  lemma IsTileModelMatchesIdentity(m: Model, t: Tile, sameRef: (Option<string>, Option<string>) -> bool)
    requires forall a, b :: sameRef(a, b) ==> a == b
    ensures IsTileModel(m, t, sameRef) == Success(true) ==>
      && m.artifactId == t.model.artifactId && RealGroupId(m) == RealGroupId(t.model)
      && RealVersion(m) == RealVersion(t.model)
  {
  }

  /** `tiles.stream().filter(…).findFirst()`: the index of the first tile that is the read model. */
  function FindTile(m: Model, tiles: seq<Tile>, sameRef: (Option<string>, Option<string>) -> bool): (r: Result<Option<nat>, Exception>)
    ensures r.Success? && r.value.Some? ==>
      r.value.value < |tiles| && IsTileModel(m, tiles[r.value.value], sameRef) == Success(true)
      && forall j :: 0 <= j < r.value.value ==> IsTileModel(m, tiles[j], sameRef) == Success(false)
    ensures r.Success? && r.value.None? ==> forall j :: 0 <= j < |tiles| ==> IsTileModel(m, tiles[j], sameRef) == Success(false)
    ensures r.Failure? ==> exists j :: 0 <= j < |tiles| && IsTileModel(m, tiles[j], sameRef).Failure?
    decreases |tiles|
  {
    if tiles == [] then Success(None)
    else
      var found :- IsTileModel(m, tiles[0], sameRef);
      if found then Success(Some(0))
      else
        match FindTile(m, tiles[1..], sameRef)
        case Failure(e) =>
          var j :| 0 <= j < |tiles[1..]| && IsTileModel(m, tiles[1..][j], sameRef).Failure?;
          assert tiles[j + 1] == tiles[1..][j];
          Failure(e)
        case Success(None) =>
          assert forall j :: 1 <= j < |tiles| ==> tiles[j] == tiles[1..][j - 1];
          Success(None)
        case Success(Some(i)) =>
          assert forall j :: 1 <= j < |tiles| ==> tiles[j] == tiles[1..][j - 1];
          Success(Some(i + 1))
  }

  /**
   * The decision once the project-level test is known: at the project level inject unless in
   * named mode; elsewhere inject at the model whose `group:artifact` is the configured target;
   * at any other tile or pom packaging hand back the matching tile model, if there is one.
   */
  function DecideWith(atProject: bool, namedMode: bool, m: Model, applyBefore: Option<string>, tiles: seq<Tile>,
                      sameRef: (Option<string>, Option<string>) -> bool): (r: Result<Decision, Exception>)
    ensures atProject ==> r == Success(if namedMode then Pass else Inject)
    ensures !atProject && applyBefore == Some(ModelRealGa(m)) ==> r == Success(Inject)
    ensures r == Success(Inject) ==> (atProject && !namedMode) || (!atProject && applyBefore == Some(ModelRealGa(m)))
    ensures r.Success? && r.value.Substitute? ==>
      && !atProject && (m.packaging == "tile" || m.packaging == "pom")
      && r.value.index < |tiles| && IsTileModel(m, tiles[r.value.index], sameRef) == Success(true)
    ensures r.Failure? ==> !atProject && (m.packaging == "tile" || m.packaging == "pom")
  {
    if atProject then Success(if namedMode then Pass else Inject)
    else if applyBefore == Some(ModelRealGa(m)) then Success(Inject)
    else if m.packaging == "tile" || m.packaging == "pom" then
      var found :- FindTile(m, tiles, sameRef);
      Success(if found.Some? then Substitute(found.value) else Pass)
    else Success(Pass)
  }

  /** The decision as written: named mode is `parseBoolean(applyBefore)`. */
  function DecideAsWritten(m: Model, project: ProjectId, applyBefore: Option<string>, tiles: seq<Tile>,
                           sameRef: (Option<string>, Option<string>) -> bool, eval: string -> Option<string>): (r: Result<Decision, Exception>)
    ensures IsProjectModelAsWritten(m, project, eval).Failure? ==> r.Failure?
    ensures IsProjectModelAsWritten(m, project, eval).Success? ==>
      r == DecideWith(IsProjectModelAsWritten(m, project, eval).value, ParseBoolean(applyBefore), m, applyBefore, tiles, sameRef)
  {
    var atProject :- IsProjectModelAsWritten(m, project, eval);
    DecideWith(atProject, ParseBoolean(applyBefore), m, applyBefore, tiles, sameRef)
  }

  /**
   * Named mode as intended by the comments at java:592-595: a target other than the default
   * "false" is configured.
   */
  predicate NamedMode(applyBefore: Option<string>) {
    applyBefore.Some? && applyBefore.value != "false"
  }

  /** The decision as intended: named mode is `NamedMode`, and a `null` version may be the project's. */
  function DecideIntended(m: Model, project: ProjectId, applyBefore: Option<string>, tiles: seq<Tile>,
                          sameRef: (Option<string>, Option<string>) -> bool, eval: string -> Option<string>): (r: Result<Decision, Exception>)
    ensures IsProjectModelIntended(m, project, eval).Failure? ==> r.Failure?
    ensures IsProjectModelIntended(m, project, eval).Success? ==>
      r == DecideWith(IsProjectModelIntended(m, project, eval).value, NamedMode(applyBefore), m, applyBefore, tiles, sameRef)
  {
    var atProject :- IsProjectModelIntended(m, project, eval);
    DecideWith(atProject, NamedMode(applyBefore), m, applyBefore, tiles, sameRef)
  }

  /**
   * Carrying out a decision: the splice, which marks the build injected and leaves the tiles
   * re-parented; the substitution of the tile model as it now stands; or nothing.
   */
  function Apply(st: Interception, d: Decision, m: Model, eval: string -> Option<string>)
    : (r: Result<(Model, Interception), Exception>)
    requires d.Substitute? ==> d.index < |st.tiles|
    ensures d.Pass? ==> r == Success((m, st))
    ensures d.Substitute? ==> r == Success((st.tiles[d.index].model, st))
    ensures d.Inject? ==> (r.Success? <==> InjectTilesIntoParentStructure(st.tiles, m, st.cache, eval).Success?)
    ensures d.Inject? && r.Success? ==>
      var s := InjectTilesIntoParentStructure(st.tiles, m, st.cache, eval).value;
      r.value == (s.project, Interception(true, s.tiles, s.cache))
  {
    match d
    case Pass => Success((m, st))
    case Substitute(i) => Success((st.tiles[i].model, st))
    case Inject =>
      var s :- InjectTilesIntoParentStructure(st.tiles, m, st.cache, eval);
      Success((s.project, Interception(true, s.tiles, s.cache)))
  }

  /**
   * A tile handed back after the splice is the re-parented one: the same model with its parent
   * pointing at the next tile, or, for the last tile, at the project's original parent with its
   * version evaluated.
   */
  lemma SubstituteAfterInject(st: Interception, m: Model, next: Model, eval: string -> Option<string>, i: nat)
    requires Apply(st, Inject, m, eval).Success? && i < |st.tiles|
    ensures var st1 := Apply(st, Inject, m, eval).value.1;
      && st1.injected && |st1.tiles| == |st.tiles|
      && Apply(st1, Substitute(i), next, eval) == Success((st1.tiles[i].model, st1))
      && st1.tiles[i].model == st.tiles[i].model.(parent := st1.tiles[i].model.parent)
      && st1.tiles[i].model.parent ==
           if i + 1 < |st.tiles| then Some(LinkTo(st.tiles[i + 1].model)) else EvaluatedParent(m.parent, eval)
  {
  }

  /**
   * In named mode before the injection, the returned model's parent is evicted from the cache
   * (`put(…, null)`), so that the builder reads it again through the wrapper.
   */
  function Evict(st: Interception, m: Model, namedMode: bool): (r: Result<Interception, Exception>)
    ensures !namedMode || st.injected || m.parent.None? ==> r == Success(st)
    ensures r.Success? ==> r.value.injected == st.injected
    ensures namedMode && !st.injected && m.parent.Some? ==>
      var p := m.parent.value;
      && (r.Success? <==> p.groupId.Some? && p.artifactId.Some? && p.version.Some?)
      && (r.Success? ==> r.value.cache == st.cache - {Key(p.groupId.value, p.artifactId.value, p.version.value, "raw")})
  {
    if namedMode && !st.injected && m.parent.Some? then
      var p := m.parent.value;
      var cache :- Put(st.cache, p.groupId, p.artifactId, p.version, Some("raw"), None);
      assert cache == st.cache - {Key(p.groupId.value, p.artifactId.value, p.version.value, "raw")};
      Success(st.(cache := cache))
    else Success(st)
  }

  /** One read through the wrapper, as written. */
  function ReadAsWritten(st: Interception, m: Model, project: ProjectId, applyBefore: Option<string>,
                         sameRef: (Option<string>, Option<string>) -> bool, eval: string -> Option<string>)
    : (r: Result<(Model, Interception), Exception>)
    ensures DecideAsWritten(m, project, applyBefore, st.tiles, sameRef, eval).Failure? ==> r.Failure?
    ensures DecideAsWritten(m, project, applyBefore, st.tiles, sameRef, eval) == Success(Pass) ==>
      r == (var st1 :- Evict(st, m, ParseBoolean(applyBefore)); Success((m, st1)))
    ensures r.Success? && r.value.1.injected ==>
      st.injected || DecideAsWritten(m, project, applyBefore, st.tiles, sameRef, eval) == Success(Inject)
  {
    var d :- DecideAsWritten(m, project, applyBefore, st.tiles, sameRef, eval);
    var applied :- Apply(st, d, m, eval);
    var st1 :- Evict(applied.1, applied.0, ParseBoolean(applyBefore));
    Success((applied.0, st1))
  }

  /** One read through the wrapper, as intended. */
  function ReadIntended(st: Interception, m: Model, project: ProjectId, applyBefore: Option<string>,
                        sameRef: (Option<string>, Option<string>) -> bool, eval: string -> Option<string>)
    : (r: Result<(Model, Interception), Exception>)
    ensures DecideIntended(m, project, applyBefore, st.tiles, sameRef, eval).Failure? ==> r.Failure?
    ensures DecideIntended(m, project, applyBefore, st.tiles, sameRef, eval) == Success(Pass) ==>
      r == (var st1 :- Evict(st, m, NamedMode(applyBefore)); Success((m, st1)))
    ensures r.Success? && r.value.1.injected ==>
      st.injected || DecideIntended(m, project, applyBefore, st.tiles, sameRef, eval) == Success(Inject)
  {
    var d :- DecideIntended(m, project, applyBefore, st.tiles, sameRef, eval);
    var applied :- Apply(st, d, m, eval);
    var st1 :- Evict(applied.1, applied.0, NamedMode(applyBefore));
    Success((applied.0, st1))
  }

  /** After the build, as written: a target that was never met fails only when `parseBoolean` holds. */
  function FinishAsWritten(st: Interception, applyBefore: Option<string>): (r: Result<Interception, Exception>)
    ensures r.Failure? <==> !st.injected && ParseBoolean(applyBefore)
    ensures r.Failure? ==> r.error == InjectionTargetNotFound(applyBefore.value)
    ensures r.Success? ==> r.value == st
  {
    if !st.injected && ParseBoolean(applyBefore) then Failure(InjectionTargetNotFound(applyBefore.value))
    else Success(st)
  }

  /** After the build, as intended: a configured target that was never met fails the build. */
  function FinishIntended(st: Interception, applyBefore: Option<string>): (r: Result<Interception, Exception>)
    ensures r.Failure? <==> !st.injected && NamedMode(applyBefore)
    ensures r.Failure? ==> r.error == InjectionTargetNotFound(applyBefore.value)
    ensures r.Success? ==> r.value == st
  {
    if !st.injected && NamedMode(applyBefore) then Failure(InjectionTargetNotFound(applyBefore.value))
    else Success(st)
  }

  /**
   * As written, a `group:artifact` target is ignored at the project level: the tiles are spliced
   * in right above the project, exactly as with no target at all.
   */
  lemma NamedTargetIgnoredAtProjectAsWritten(m: Model, project: ProjectId, target: string, tiles: seq<Tile>,
                                             sameRef: (Option<string>, Option<string>) -> bool, eval: string -> Option<string>)
    requires ':' in target
    requires IsProjectModelAsWritten(m, project, eval) == Success(true)
    ensures DecideAsWritten(m, project, Some(target), tiles, sameRef, eval) == Success(Inject)
    ensures DecideAsWritten(m, project, Some(target), tiles, sameRef, eval) == DecideAsWritten(m, project, Some("false"), tiles, sameRef, eval)
  {
    ParseBooleanRejectsColon(target);
  }

  /** As written, a `group:artifact` target never evicts a parent from the cache. */
  lemma NamedTargetNeverEvictsAsWritten(st: Interception, m: Model, target: string)
    requires ':' in target
    ensures Evict(st, m, ParseBoolean(Some(target))) == Success(st)
  {
    ParseBooleanRejectsColon(target);
  }

  /** As written, a `group:artifact` target that is never met does not fail the build. */
  lemma MissingTargetUnreportedAsWritten(st: Interception, target: string)
    requires ':' in target
    ensures FinishAsWritten(st, Some(target)) == Success(st)
  {
    ParseBooleanRejectsColon(target);
  }

  /** As intended, a configured target holds the tiles back at the project level. */
  lemma NamedTargetWaitsIntended(m: Model, project: ProjectId, target: string, tiles: seq<Tile>,
                                 sameRef: (Option<string>, Option<string>) -> bool, eval: string -> Option<string>)
    requires target != "false"
    requires IsProjectModelIntended(m, project, eval) == Success(true)
    ensures DecideIntended(m, project, Some(target), tiles, sameRef, eval) == Success(Pass)
  {
  }

  /** As intended, the tiles go in at the read whose `group:artifact` is the target. */
  lemma NamedTargetInjectsIntended(m: Model, project: ProjectId, tiles: seq<Tile>,
                                   sameRef: (Option<string>, Option<string>) -> bool, eval: string -> Option<string>)
    requires IsProjectModelIntended(m, project, eval) == Success(false)
    ensures DecideIntended(m, project, Some(ModelRealGa(m)), tiles, sameRef, eval) == Success(Inject)
  {
  }

  /** As intended, a configured target that is never met fails the build, naming the target. */
  lemma MissingTargetReportedIntended(st: Interception, target: string)
    requires target != "false" && !st.injected
    ensures FinishIntended(st, Some(target)) == Failure(InjectionTargetNotFound(target))
  {
  }

  /**
   * As intended, before the injection every read whose parent reference is complete evicts
   * that parent, while after it nothing is evicted.
   */
  lemma EvictionIntended(st: Interception, m: Model, target: string)
    requires target != "false" && m.parent.Some?
    requires m.parent.value.groupId.Some? && m.parent.value.artifactId.Some? && m.parent.value.version.Some?
    ensures var p := m.parent.value;
      Evict(st, m, NamedMode(Some(target))) ==
        Success(if st.injected then st else st.(cache := st.cache - {Key(p.groupId.value, p.artifactId.value, p.version.value, "raw")}))
  {
  }

  /**
   * As written, the project's own descriptor whose version is missing or evaluates to `null`
   * (an undefined `${revision}`, say) fails with a null dereference.
   */
  lemma NullVersionFailsAsWritten(m: Model, project: ProjectId, eval: string -> Option<string>)
    requires m.artifactId.Some? && m.artifactId == project.artifactId
    requires RealGroupId(m).Some? && RealGroupId(m) == project.groupId
    requires Evaluate(RealVersion(m), eval).None?
    ensures IsProjectModelAsWritten(m, project, eval) == Failure(NullPointer("version"))
  {
  }

  /** As intended, the same descriptor is recognised as the project's when the packaging agrees. */
  lemma NullVersionAcceptedIntended(m: Model, project: ProjectId, eval: string -> Option<string>)
    requires m.artifactId.Some? && m.artifactId == project.artifactId
    requires RealGroupId(m).Some? && RealGroupId(m) == project.groupId
    requires Evaluate(RealVersion(m), eval).None? && m.packaging == project.packaging
    ensures IsProjectModelIntended(m, project, eval) == Success(true)
  {
  }

  /** Where the project-level test does not fail, the intended one agrees with the code. */
  lemma ProjectTestsAgree(m: Model, project: ProjectId, eval: string -> Option<string>)
    requires IsProjectModelAsWritten(m, project, eval).Success?
    ensures IsProjectModelIntended(m, project, eval) == IsProjectModelAsWritten(m, project, eval)
  {
  }
}
