/** The exceptions the tiles core throws, as one datatype. */
module Exceptions {
  import opened Wrappers

  datatype Exception =
      /** A tile reference without 3 or 5 colon fields. */
    | MalformedCoordinate(text: string)
      /** `DefaultArtifact`'s identity check (`InvalidArtifactRTException`), with its message. */
    | InvalidArtifact(message: string)
      /** A build-smell token outside the five known smell names. */
    | UnknownSmell(smells: seq<string>)
      /** A merge-source execution without a registered merge target; `expectedTarget` is the
          `tile-merge-expected-target` property of the fragment, when it has one. */
    | MissingMergeTarget(expectedTarget: Option<string>, fragmentId: string, executionId: string)
      /** `applyBefore` asked for a parent that was never read. */
    | InjectionTargetNotFound(target: string)
      /** A failure reported by a collaborator outside the model (repository, XML parser). */
    | External(message: string)
      /** XOM refuses to detach the root element of a document. */
    | CannotRemoveRoot
      /** `List.remove(0)` on an empty list. */
    | IndexOutOfBounds(what: string)
      /** A dereference of a Java `null`. */
    | NullPointer(what: string)
      /** The discovery worklist did not drain within the fuel given to the model. */
    | OutOfFuel
}
