/** Tile references: the `group:artifact[:type:classifier]:version` strings of a tile declaration. */
module Coordinates {
  import opened Wrappers
  import opened JavaStrings
  import opened Exceptions
  import opened MavenModel
  import opened GavUtil

  /**
   * The message of the `InvalidArtifactRTException` that `new DefaultArtifact(...)` in
   * `getArtifactFromCoordinates` (TilesMavenLifecycleParticipant.java:182-192) throws for a group id
   * that is empty or only whitespace (`Blank`). `DefaultArtifact` is not part of this model beyond that check.
   */
  const EmptyGroupId := "The groupId cannot be empty."

  /**
   * `turnPropertyIntoUnprocessedTile`: a reference splits (Java `split`) into exactly 3 or 5
   * fields; the 3-field form defaults the type to "xml" and the classifier to "". The artifact
   * is then built by `getArtifactFromCoordinates`, which rejects a blank group id.
   */
  function TurnPropertyIntoUnprocessedTile(text: string): (r: Result<Artifact, Exception>)
    ensures r.Success? <==> (|Split(text, ':')| == 3 || |Split(text, ':')| == 5) && !Blank(Split(text, ':')[0])
    ensures |Split(text, ':')| != 3 && |Split(text, ':')| != 5 ==> r == Failure(MalformedCoordinate(text))
    ensures (|Split(text, ':')| == 3 || |Split(text, ':')| == 5) && Blank(Split(text, ':')[0]) ==>
      r == Failure(InvalidArtifact(EmptyGroupId))
    ensures |Split(text, ':')| == 3 && r.Success? ==>
      var gav := Split(text, ':'); r.value == Artifact(gav[0], gav[1], "xml", "", gav[2])
    ensures |Split(text, ':')| == 5 && r.Success? ==>
      var gav := Split(text, ':'); r.value == Artifact(gav[0], gav[1], gav[2], gav[3], gav[4])
  {
    var gav := Split(text, ':');
    if |gav| != 3 && |gav| != 5 then Failure(MalformedCoordinate(text))
    else if Blank(gav[0]) then Failure(InvalidArtifact(EmptyGroupId))
    else if |gav| == 3 then Success(Artifact(gav[0], gav[1], "xml", "", gav[2]))
    else Success(Artifact(gav[0], gav[1], gav[2], gav[3], gav[4]))
  }

  /** No field of a parsed coordinate holds a colon. */
  predicate ColonFree(a: Artifact) {
    ':' !in a.groupId && ':' !in a.artifactId && ':' !in a.typ && ':' !in a.classifier && ':' !in a.version
  }

  lemma ParsedIsColonFree(text: string)
    requires TurnPropertyIntoUnprocessedTile(text).Success?
    ensures ColonFree(TurnPropertyIntoUnprocessedTile(text).value)
  {
  }

  /** The long form of a reference. */
  function LongForm(a: Artifact): string {
    a.groupId + ":" + a.artifactId + ":" + a.typ + ":" + a.classifier + ":" + a.version
  }

  /**
   * Printing a coordinate as `group:artifact:version` and parsing it back gives the default type
   * and classifier, or the blank-group error when the group id is blank.
   */
  lemma {:induction false} ShortFormRoundTrip(a: Artifact)
    requires ColonFree(a) && a.version != ""
    ensures TurnPropertyIntoUnprocessedTile(ArtifactGav(a)) ==
      if Blank(a.groupId) then Failure(InvalidArtifact(EmptyGroupId)) else Success(a.(typ := "xml", classifier := ""))
  {
    ArtifactGavSplits(a);
  }

  /**
   * Printing a coordinate in the long form and parsing it back gives the coordinate itself, or
   * the blank-group error when the group id is blank.
   */
  lemma {:induction false} LongFormRoundTrip(a: Artifact)
    requires ColonFree(a) && a.version != ""
    ensures TurnPropertyIntoUnprocessedTile(LongForm(a)) ==
      if Blank(a.groupId) then Failure(InvalidArtifact(EmptyGroupId)) else Success(a)
  {
    var parts := [a.groupId, a.artifactId, a.typ, a.classifier, a.version];
    assert Join(parts[4..], ':') == a.version;
    assert Join(parts[3..], ':') == a.classifier + ":" + a.version;
    assert Join(parts[2..], ':') == a.typ + ":" + a.classifier + ":" + a.version;
    assert Join(parts[1..], ':') == a.artifactId + ":" + a.typ + ":" + a.classifier + ":" + a.version;
    assert Join(parts, ':') == LongForm(a);
    SplitOfJoin(parts, ':');
  }

  /**
   * Two references that parse to the same group and artifact get the same tile key, whatever
   * their version, type or classifier; references with different group or artifact never do.
   */
  lemma {:induction false} KeyIgnoresVersionTypeClassifier(t1: string, t2: string)
    requires TurnPropertyIntoUnprocessedTile(t1).Success? && TurnPropertyIntoUnprocessedTile(t2).Success?
    ensures var a1 := TurnPropertyIntoUnprocessedTile(t1).value;
            var a2 := TurnPropertyIntoUnprocessedTile(t2).value;
            ArtifactName(a1) == ArtifactName(a2) <==> a1.groupId == a2.groupId && a1.artifactId == a2.artifactId
  {
    ParsedIsColonFree(t1);
    ParsedIsColonFree(t2);
    ArtifactNameIdentity(TurnPropertyIntoUnprocessedTile(t1).value, TurnPropertyIntoUnprocessedTile(t2).value);
  }

  /** Example: Java's `split` drops a trailing empty field, so "g:a:1.0:" still parses. */
  lemma TrailingColonTolerated()
    ensures TurnPropertyIntoUnprocessedTile("g:a:1.0:") == Success(Artifact("g", "a", "xml", "", "1.0"))
  {
    var parts := ["g", "a", "1.0", ""];
    assert Join(parts[3..], ':') == "";
    assert Join(parts[2..], ':') == "1.0:";
    assert Join(parts[1..], ':') == "a:1.0:";
    assert Join(parts, ':') == "g:a:1.0:";
    FieldsOfJoin(parts, ':');
    assert DropTrailingEmpty(parts) == ["g", "a", "1.0"];
  }

  /** Example: a reference with an empty group id has three fields but is rejected by `DefaultArtifact`. */
  lemma EmptyGroupRejected()
    ensures TurnPropertyIntoUnprocessedTile(":a:1") == Failure(InvalidArtifact(EmptyGroupId))
  {
    var parts := ["", "a", "1"];
    assert Join(parts[2..], ':') == "1";
    assert Join(parts[1..], ':') == "a:1";
    assert Join(parts, ':') == ":a:1";
    FieldsOfJoin(parts, ':');
    assert DropTrailingEmpty(parts) == parts;
  }

  /** Example: a reference with an empty version ("g:a:") loses that field and is rejected. */
  lemma EmptyVersionRejected()
    ensures TurnPropertyIntoUnprocessedTile("g:a:").Failure?
  {
    var parts := ["g", "a", ""];
    assert Join(parts[2..], ':') == "";
    assert Join(parts[1..], ':') == "a:";
    assert Join(parts, ':') == "g:a:";
    FieldsOfJoin(parts, ':');
    assert DropTrailingEmpty(parts) == ["g", "a"];
  }
}
