/** `GavUtil`: the textual identities the tiles core builds for artifacts, models and parents. */
module GavUtil {
  import opened Wrappers
  import opened JavaStrings
  import opened MavenModel

  /** `String.format("%s", x)`: a `null` argument prints as "null". */
  function Show(x: Option<string>): string {
    match x
    case Some(s) => s
    case None => "null"
  }

  /** `group:artifact`, the shape of every two-part key. */
  lemma JoinTwo(g: string, x: string)
    ensures Join([g, x], ':') == g + ":" + x
  {
    assert [g, x][1..] == [x];
  }

  /** `group:artifact:version`, the shape of every three-part identity. */
  lemma JoinThree(g: string, x: string, v: string)
    ensures Join([g, x, v], ':') == g + ":" + x + ":" + v
  {
    assert [g, x, v][1..] == [x, v];
    JoinTwo(x, v);
  }

  /** `artifactName`: the `group:artifact` key used to de-duplicate tiles. */
  function ArtifactName(a: Artifact): (r: string)
    ensures r == Join([a.groupId, a.artifactId], ':')
  {
    GroupArtifact(a.groupId, a.artifactId)
  }

  /** The `group:artifact` text shared by `artifactName` and `Plugin.getKey`. */
  function GroupArtifact(groupId: string, artifactId: string): (r: string)
    ensures r == Join([groupId, artifactId], ':')
  {
    JoinTwo(groupId, artifactId);
    groupId + ":" + artifactId
  }

  /** `artifactGav`: `group:artifact:version`. */
  function ArtifactGav(a: Artifact): (r: string)
    ensures r == Join([a.groupId, a.artifactId, a.version], ':')
  {
    JoinThree(a.groupId, a.artifactId, a.version);
    a.groupId + ":" + a.artifactId + ":" + a.version
  }

  /** `modelGav`: `group:artifact:version` of the model's own (possibly null) fields. */
  function ModelGav(m: Model): (r: string)
    ensures r == Join([Show(m.groupId), Show(m.artifactId), Show(m.version)], ':')
  {
    JoinThree(Show(m.groupId), Show(m.artifactId), Show(m.version));
    Show(m.groupId) + ":" + Show(m.artifactId) + ":" + Show(m.version)
  }

  /** `parentGav`: the parent's `group:artifact:version`, or "(no parent)". */
  function ParentGav(p: Option<Parent>): (r: string)
    ensures p.None? ==> r == "(no parent)"
    ensures p.Some? ==> ':' in r && r != "(no parent)"
    ensures p.Some? ==> r == Join([Show(p.value.groupId), Show(p.value.artifactId), Show(p.value.version)], ':')
  {
    match p
    case None => "(no parent)"
    case Some(q) =>
      var r := Show(q.groupId) + ":" + Show(q.artifactId) + ":" + Show(q.version);
      assert r[|Show(q.groupId)|] == ':';
      JoinThree(Show(q.groupId), Show(q.artifactId), Show(q.version));
      r
  }

  /** Three colon-free fields, the last not empty, come back out of their colon-joined form. */
  lemma SplitThree(g: string, x: string, v: string)
    requires ':' !in g && ':' !in x && ':' !in v && v != ""
    ensures Split(g + ":" + x + ":" + v, ':') == [g, x, v]
  {
    var parts := [g, x, v];
    JoinThree(g, x, v);
    SplitOfJoin(parts, ':');
  }

  /** A parent's printed identity splits back into its group, artifact and version. */
  lemma ParentGavSplits(q: Parent)
    requires q.groupId.Some? && q.artifactId.Some? && q.version.Some?
    requires ':' !in q.groupId.value && ':' !in q.artifactId.value && ':' !in q.version.value && q.version.value != ""
    ensures Split(ParentGav(Some(q)), ':') == [q.groupId.value, q.artifactId.value, q.version.value]
  {
    SplitThree(q.groupId.value, q.artifactId.value, q.version.value);
  }

  /** A model's printed identity splits back into its fields; a missing field reads back as "null". */
  lemma ModelGavSplits(m: Model)
    requires ':' !in Show(m.groupId) && ':' !in Show(m.artifactId) && ':' !in Show(m.version) && Show(m.version) != ""
    ensures Split(ModelGav(m), ':') == [Show(m.groupId), Show(m.artifactId), Show(m.version)]
  {
    SplitThree(Show(m.groupId), Show(m.artifactId), Show(m.version));
  }

  /** `getRealGroupId`: the model's own groupId, else its parent's, else null. */
  function RealGroupId(m: Model): (r: Option<string>)
    ensures m.groupId.Some? ==> r == m.groupId
    ensures m.groupId.None? && m.parent.Some? ==> r == m.parent.value.groupId
    ensures m.groupId.None? && m.parent.None? ==> r.None?
  {
    if m.groupId.Some? then m.groupId else if m.parent.Some? then m.parent.value.groupId else None
  }

  /** `getRealVersion`: the model's own version, else its parent's, else null. */
  function RealVersion(m: Model): (r: Option<string>)
    ensures m.version.Some? ==> r == m.version
    ensures m.version.None? && m.parent.Some? ==> r == m.parent.value.version
    ensures m.version.None? && m.parent.None? ==> r.None?
  {
    if m.version.Some? then m.version else if m.parent.Some? then m.parent.value.version else None
  }

  /** `modelRealGa`: `group:artifact` with the group inherited from the parent when the model has none. */
  function ModelRealGa(m: Model): (r: string)
    ensures r == Join([Show(RealGroupId(m)), Show(m.artifactId)], ':')
  {
    JoinTwo(Show(RealGroupId(m)), Show(m.artifactId));
    Show(RealGroupId(m)) + ":" + Show(m.artifactId)
  }

  /** `g + ":" + x` determines `g` and `x` when `g` has no colon. */
  lemma PairInjective(g1: string, x1: string, g2: string, x2: string)
    requires ':' !in g1 && ':' !in g2
    requires g1 + ":" + x1 == g2 + ":" + x2
    ensures g1 == g2 && x1 == x2
  {
    var s := g1 + ":" + x1;
    assert s[|g1|] == ':' && s[|g2|] == ':';
    assert forall k :: 0 <= k < |g1| ==> s[k] == g1[k];
    assert forall k :: 0 <= k < |g2| ==> s[k] == g2[k];
    assert |g1| == |g2|;
    assert g1 == s[..|g1|] && g2 == s[..|g2|];
    assert x1 == s[|g1| + 1..] && x2 == s[|g2| + 1..];
  }

  /**
   * Two artifacts share a tile key exactly when they share group and artifact; version, type and
   * classifier never separate them. Groups without a colon (all parsed coordinates) are assumed.
   */
  lemma ArtifactNameIdentity(a1: Artifact, a2: Artifact)
    requires ':' !in a1.groupId && ':' !in a2.groupId
    ensures ArtifactName(a1) == ArtifactName(a2) <==> a1.groupId == a2.groupId && a1.artifactId == a2.artifactId
  {
    if ArtifactName(a1) == ArtifactName(a2) {
      PairInjective(a1.groupId, a1.artifactId, a2.groupId, a2.artifactId);
    }
  }

  /** `artifactGav` splits back into its three fields when none holds a colon and the version is not empty. */
  lemma ArtifactGavSplits(a: Artifact)
    requires ':' !in a.groupId && ':' !in a.artifactId && ':' !in a.version && a.version != ""
    ensures Split(ArtifactGav(a), ':') == [a.groupId, a.artifactId, a.version]
  {
    SplitThree(a.groupId, a.artifactId, a.version);
  }

  /**
   * Two models share a `modelRealGa` exactly when their real groups and artifacts print alike,
   * so a model without a group is keyed as its parent's group.
   */
  lemma ModelRealGaIdentity(m1: Model, m2: Model)
    requires ':' !in Show(RealGroupId(m1)) && ':' !in Show(RealGroupId(m2))
    ensures ModelRealGa(m1) == ModelRealGa(m2)
        <==> Show(RealGroupId(m1)) == Show(RealGroupId(m2)) && Show(m1.artifactId) == Show(m2.artifactId)
  {
    if ModelRealGa(m1) == ModelRealGa(m2) {
      PairInjective(Show(RealGroupId(m1)), Show(m1.artifactId), Show(RealGroupId(m2)), Show(m2.artifactId));
    }
  }
}
