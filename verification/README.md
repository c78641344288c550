# Maven Tiles: discovery and composition, in Dafny

The Maven Tiles plugin composes a Maven project from *tiles*. A tile is a small POM fragment,
referenced as `group:artifact:version` or `group:artifact:type:classifier:version`. This project models the plugin's core as pure functions over immutable data:

- **Coordinates.** Tile references are parsed with Java's `String.split` rules, and a blank group id is rejected as `DefaultArtifact` rejects it.
- **Discovery.** The worklist queues references under their `group:artifact` key and loads each tile. It holds merge-source fragments aside, registers merge targets and recurses through the tiles a tile declares. The discovery order is then pruned.
- **Fragment merge.** A fragment merges into the tiles that own its executions. Properties are overwritten, and configuration is appended under `tiles-append`.
- **Tile binding and stripping.** Bound tiles get the artifact's identity, and their execution ids are rewritten, except where `tiles-keep-id` opts out. `tiles` elements are stripped from the tile document.
- **Purity validation.** The smell allow-list is parsed and the tile's purity checks are run.
- **Parent chain.** The tiles are spliced into the parent chain as project → t1 → … → tN → original parent, and the model cache is seeded with every tile.
- **Read interceptor.** Each descriptor read decides whether the tiles go in at that read, or hands back a tile model; once the splice has happened, the tile models it hands back are the re-parented ones.
- **Writeback.** The effective model is copied back onto the project, including the source-root and m2e carve-outs, and the release and snapshot deployment URLs are selected.
- **Project builder.** The tile dependencies are injected by the project builder.
- **Helpers.** The `GavUtil`, `ConfigurationHelper` and `NotDefaultModelCache` helpers are modelled as well.

Java objects become datatypes, and `null` becomes `Option`. Exceptions, including null dereferences and index errors, become a `Result` failure.

Tiles live in an arena, a sequence of `Tile` values. Maps refer to tiles by index, the way the Java code shares `TileModel` objects between `processedTiles` and `tilesByExecution`.

Several Maven and Java services are parameters:
- artifact resolution;
- the POM reader;
- the expression evaluator behind `evaluateString`, which may yield `null`;
- the iteration order of a `HashMap`, as a chooser that picks a member of a non-empty key set;
- `VersionRange` parsing.

The discovery worklist carries a fuel bound. The worklist functions also take a ghost set `extra` of keys counted as settled; it is proof bookkeeping for the no-reference-lost property and has no run-time counterpart.

Modules, one file each:
- `Wrappers` (`Option`, `Result`), `Exceptions`, `Seqs`, `JavaStrings`, `Xpp3`, `MavenModel`: the vocabulary.
- `GavUtil`, `ConfigurationHelper`, `Coordinates`, `NotDefaultModelCache`: helpers and coordinate parsing.
- `TileModel`, `TileValidator`: loading, binding and validating a tile.
- `Discovery`, `Merger`, `Loader`: the discovery worklist and the fragment merge.
- `ParentChain`, `ReadInterceptor`, `Writeback`: what the model builder sees and what is written back.
- `ProjectBuilder`: the dependency injection of `TilesProjectBuilder`.

## Model

| member | source | states |
|---|---|---|
| ConfigurationHelper.SafeConfig | src/main/java/io/repaint/maven/tiles/ConfigurationHelper.java:10-18 | no configuration, or zero or several children with the name, gives the default; exactly one child gives that child's value |
| ConfigurationHelper.SafeTiles | src/main/java/io/repaint/maven/tiles/ConfigurationHelper.java:20-33 | no configuration gives the empty list; otherwise one entry per `tiles` child, in order, holding its value |
| JavaStrings.Split | src/main/java/io/repaint/maven/tiles/TilesMavenLifecycleParticipant.java:270 | `String.split` on a one-character separator: the fields between separators, trailing empty fields dropped, a text without separator is one field |
| JavaStrings.SplitOfJoin | src/main/java/io/repaint/maven/tiles/TilesMavenLifecycleParticipant.java:270 | splitting fields joined by the separator gives the fields back when they hold no separator and the last is non-empty |
| JavaStrings.Trim | src/main/java/io/repaint/maven/tiles/TileValidator.java:41 | the result is a slice of the input, starts and ends with non-whitespace, is the input when both ends already are, and is empty only for all-whitespace input |
| JavaStrings.BlankIffTrimEmpty | src/main/java/io/repaint/maven/tiles/TilesMavenLifecycleParticipant.java:182-192 | a text is `Blank` (white space only, the test `DefaultArtifact` applies to a group id) exactly when its `trim()` is empty |
| JavaStrings.ParseBoolean | src/main/java/io/repaint/maven/tiles/TilesMavenLifecycleParticipant.java:563 | `Boolean.parseBoolean`: true exactly for a present text that reads "true" once its capitals are lowered |
| JavaStrings.ParseBooleanAnyCase | src/main/java/io/repaint/maven/tiles/TilesMavenLifecycleParticipant.java:563 | every mix of cases of "true" parses as true |
| JavaStrings.ParseBooleanRejectsColon | src/main/java/io/repaint/maven/tiles/TilesMavenLifecycleParticipant.java:563 | `parseBoolean` is false for every text holding a colon, such as a `group:artifact` name |
| Coordinates.TurnPropertyIntoUnprocessedTile | src/main/java/io/repaint/maven/tiles/TilesMavenLifecycleParticipant.java:269-292 | parses exactly when the split has 3 or 5 fields and the group id is not blank; a wrong field count fails naming the text, and a blank group id fails with `DefaultArtifact`'s "The groupId cannot be empty." (`getArtifactFromCoordinates`, java:182-192); 3 fields give type "xml" and classifier "", 5 fields take type, classifier and version from fields 2, 3, 4 |
| Coordinates.ParsedIsColonFree | src/main/java/io/repaint/maven/tiles/TilesMavenLifecycleParticipant.java:269-292 | no field of a parsed coordinate holds a colon |
| Coordinates.ShortFormRoundTrip | src/main/java/io/repaint/maven/tiles/GavUtil.java:16-18 | the `artifactGav` text of a colon-free artifact parses back to it with type "xml" and classifier "", or fails with the blank-group error when its group id is blank |
| Coordinates.LongFormRoundTrip | src/main/java/io/repaint/maven/tiles/TilesMavenLifecycleParticipant.java:284-288 | the five-field text of a colon-free artifact parses back to the same artifact, or fails with the blank-group error when its group id is blank |
| Coordinates.KeyIgnoresVersionTypeClassifier | src/main/java/io/repaint/maven/tiles/GavUtil.java:8-10 | two parsed references have the same `artifactName` key exactly when group and artifact agree, whatever their version, type and classifier |
| Coordinates.TrailingColonTolerated | src/main/java/io/repaint/maven/tiles/TilesMavenLifecycleParticipant.java:270-276 | example only, not a general property: "g:a:1.0:" is accepted as a three-field reference, because split drops the trailing empty field |
| Coordinates.EmptyGroupRejected | src/main/java/io/repaint/maven/tiles/TilesMavenLifecycleParticipant.java:182-192 | example only, not a general property: ":a:1" has three fields but its empty group id is rejected |
| Coordinates.EmptyVersionRejected | src/main/java/io/repaint/maven/tiles/TilesMavenLifecycleParticipant.java:270-276 | example only, not a general property: "g:a:" has only two fields and is rejected |
| GavUtil.ParentGav | src/main/java/io/repaint/maven/tiles/GavUtil.java:36-42 | a missing parent prints as "(no parent)"; a present one prints as a colon-separated coordinate |
| GavUtil.RealGroupId | src/main/java/io/repaint/maven/tiles/GavUtil.java:44-46 | the model's own group id, else its parent's, else none |
| GavUtil.RealVersion | src/main/java/io/repaint/maven/tiles/GavUtil.java:48-50 | the model's own version, else its parent's, else none |
| GavUtil.ArtifactName | src/main/java/io/repaint/maven/tiles/GavUtil.java:8-14 | the group and artifact joined by one colon |
| GavUtil.ArtifactGav | src/main/java/io/repaint/maven/tiles/GavUtil.java:16-22 | group, artifact and version joined by colons |
| GavUtil.ModelGav | src/main/java/io/repaint/maven/tiles/GavUtil.java:24-26 | the model's own group, artifact and version joined by colons, a missing field printed as "null" |
| GavUtil.ModelRealGa | src/main/java/io/repaint/maven/tiles/GavUtil.java:32-34 | the real group (own, else the parent's, else "null") and the artifact joined by a colon |
| GavUtil.ParentGavSplits | src/main/java/io/repaint/maven/tiles/GavUtil.java:36-42 | a parent's printed identity splits back into its group, artifact and version when none holds a colon |
| GavUtil.ModelGavSplits | src/main/java/io/repaint/maven/tiles/GavUtil.java:24-26 | a model's printed identity splits back into its three fields, a missing one reading back as "null" |
| GavUtil.ModelRealGaIdentity | src/main/java/io/repaint/maven/tiles/GavUtil.java:32-34 | two models print the same `modelRealGa` exactly when their printed real groups and artifacts agree |
| GavUtil.ArtifactNameIdentity | src/main/java/io/repaint/maven/tiles/GavUtil.java:8-14 | `artifactName` of two artifacts with colon-free groups is equal exactly when group and artifact are |
| GavUtil.ArtifactGavSplits | src/main/java/io/repaint/maven/tiles/GavUtil.java:16-22 | `artifactGav` splits back into group, artifact and version |
| NotDefaultModelCache.NewKey | src/main/java/io/repaint/maven/tiles/NotDefaultModelCache.java:41-54 | a key is made exactly when all four fields are present (hashing a missing one is a null dereference) and holds the four fields |
| NotDefaultModelCache.Equals | src/main/java/io/repaint/maven/tiles/NotDefaultModelCache.java:56-68 | a key equals an object exactly when it is a key with the same four fields, and never equals null or an object of another class |
| NotDefaultModelCache.Int32 | src/main/java/io/repaint/maven/tiles/NotDefaultModelCache.java:48-53 | Java `int` arithmetic: the result is in the 32-bit range and congruent to the exact value modulo 2^32 |
| NotDefaultModelCache.StringHash | src/main/java/io/repaint/maven/tiles/NotDefaultModelCache.java:49-52 | `String.hashCode` runs over the UTF-16 code units, stays in the 32-bit range and is 0 for the empty string |
| NotDefaultModelCache.Utf16Units | src/main/java/io/repaint/maven/tiles/NotDefaultModelCache.java:49-52 | a character below U+10000 is one code unit, itself; any other is a high surrogate followed by a low surrogate |
| NotDefaultModelCache.Utf16Decodes | src/main/java/io/repaint/maven/tiles/NotDefaultModelCache.java:49-52 | the surrogate pair decodes back to the character it encodes |
| NotDefaultModelCache.StringHashAppend | src/main/java/io/repaint/maven/tiles/NotDefaultModelCache.java:49-52 | appending a character advances `h = 31 * h + unit` once per UTF-16 code unit, in 32-bit arithmetic |
| NotDefaultModelCache.SupplementaryHash | src/main/java/io/repaint/maven/tiles/NotDefaultModelCache.java:49-52 | example only, not a general property: U+1F600 hashes as its two surrogates 0xD83D and 0xDE00, as in Java |
| NotDefaultModelCache.HashCode | src/main/java/io/repaint/maven/tiles/NotDefaultModelCache.java:48-53 | the key hash stays in the 32-bit range |
| NotDefaultModelCache.Get | src/main/java/io/repaint/maven/tiles/NotDefaultModelCache.java:27-29 | fails exactly when the key cannot be made; otherwise finds an entry exactly when the key is cached, and returns its data |
| NotDefaultModelCache.Put | src/main/java/io/repaint/maven/tiles/NotDefaultModelCache.java:31-33 | fails exactly when the key cannot be made; otherwise stores the data under the key, or evicts it when the data is null, and leaves every other entry alone |
| NotDefaultModelCache.PutThenGet | src/main/java/io/repaint/maven/tiles/NotDefaultModelCache.java:27-33 | a get with the four strings of a put finds what the put stored |
| TileModel.Values | src/main/java/io/repaint/maven/tiles/TileModel.java:32-39 | one text per selected node, in order, each the node's string value |
| TileModel.KeepNonTiles | src/main/java/io/repaint/maven/tiles/TileModel.java:41-46 | only non-`tiles` children are kept, all from the input, and a list without `tiles` elements is kept whole |
| TileModel.RemoveTiles | src/main/java/io/repaint/maven/tiles/TileModel.java:41-46 | text stays text, and an element keeps its namespace and name |
| TileModel.RemoveTilesLeavesNone | src/main/java/io/repaint/maven/tiles/TileModel.java:41-46 | after removal no `tiles` element is left anywhere in the tree |
| TileModel.RemoveTilesKeepsTilesFree | src/main/java/io/repaint/maven/tiles/TileModel.java:41-46 | a tree without `tiles` elements is left unchanged |
| TileModel.RemoveTilesIdempotent | src/main/java/io/repaint/maven/tiles/TileModel.java:41-46 | removing twice is removing once |
| TileModel.StrippedPom | src/main/java/io/repaint/maven/tiles/TileModel.java:26-54 | fails exactly when the root itself is a `tiles` element; otherwise the document has no `tiles` element left, the collected list is the namespaced `tile` values then the plain ones, and a document without `tiles` elements is unchanged |
| TileModel.NestedTileCollected | src/main/java/io/repaint/maven/tiles/TileModel.java:26-54 | example only, not a general property: a namespaced `tiles`/`tile` block yields its reference and disappears from the document |
| TileModel.LoadTile | src/main/java/io/repaint/maven/tiles/TileModel.java:56-68 | a loaded tile's model is what the reader makes of the stripped document, and its tile list is the stripped list |
| TileModel.ExecutionIdPrefix | src/main/java/io/repaint/maven/tiles/TileModel.java:121 | `artifactGav` character by character with every colon turned into an underscore, then "__"; so the prefix holds no colon |
| TileModel.KeepsId | src/main/java/io/repaint/maven/tiles/TileModel.java:112-119 | an execution keeps its id exactly when it has a configuration whose `tiles-keep-id` attribute is "true" or whose value for `tiles-keep-id` read as `safeConfig` reads it is "true" |
| TileModel.RewriteExecution | src/main/java/io/repaint/maven/tiles/TileModel.java:106-125 | the configuration is kept, and the id is kept exactly when `tiles-keep-id` is "true" as attribute or as the single such child; otherwise it becomes prefix + old id |
| TileModel.RewriteInjective | src/main/java/io/repaint/maven/tiles/TileModel.java:121 | two rewritten executions get the same id only if they had the same id |
| TileModel.UnconfiguredAlwaysRewritten | src/main/java/io/repaint/maven/tiles/TileModel.java:112-121 | an execution without configuration is always rewritten |
| TileModel.RewritePluginExecutionIds | src/main/java/io/repaint/maven/tiles/TileModel.java:106-125 | every plugin keeps everything but its execution ids, and every execution is rewritten as above |
| TileModel.Bind | src/main/java/io/repaint/maven/tiles/TileModel.java:73-92 | the model takes the artifact's group, artifact and version, packaging "pom" and model version "4.0.0"; the plugins of the main build and of every profile build are the execution-id rewrite of the originals; nothing else changes |
| TileModel.RewriteBuild | src/main/java/io/repaint/maven/tiles/TileModel.java:82-84 | a build stays present or absent; a present build keeps everything but its plugins, which become the execution-id rewrite of its own plugins |
| TileModel.NewTile | src/main/java/io/repaint/maven/tiles/TileModel.java:73-92 | succeeds exactly when stripping and reading the document do; the tile then has the artifact's group, artifact and version, packaging "pom" and model version "4.0.0"; its references are the stripped list; the plugins of its build and of every profile's build are the read plugins with rewritten execution ids, each profile keeping its id and the presence of its build; and every other part of the model is the one that was read |
| TileModel.RestoreRewrite | src/main/java/io/repaint/maven/tiles/TileModel.java:121 | taking the prefix off a rewritten execution id gives the execution back |
| TileModel.RestoreRewritePlugins | src/main/java/io/repaint/maven/tiles/TileModel.java:106-125 | restoring the ids of a rewritten plugin list gives the list back: the rewrite loses nothing |
| TileModel.NewTileRestores | src/main/java/io/repaint/maven/tiles/TileModel.java:73-92 | restoring the ids of a new tile's build plugins gives back the plugins the reader produced |
| TileValidator.SmellTokens | src/main/java/io/repaint/maven/tiles/TileValidator.java:41 | the tokens are non-empty and hold no comma |
| TileValidator.IsValidTile | src/main/java/io/repaint/maven/tiles/TileValidator.java:76-141 | a tile is valid exactly when no complaint is raised: no identity or parent; repositories, plugin repositories, dependency management, plugin management and dependencies only where their smell is allowed; no build extensions and no plugin with extensions |
| TileValidator.ParseSmells | src/main/java/io/repaint/maven/tiles/TileValidator.java:39-54 | no list gives no smells; the list fails exactly when some trimmed non-empty token is not one of the five smells, and the error lists those tokens; otherwise the smells are exactly the tokens |
| TileValidator.ValidateModel | src/main/java/io/repaint/maven/tiles/TileValidator.java:76-141 | the result is the very model given, or nothing, and it is the model exactly when every purity check passes |
| TileValidator.MoreSmellsAcceptMore | src/main/java/io/repaint/maven/tiles/TileValidator.java:99-123 | allowing more smells never turns a valid tile invalid |
| TileValidator.SmellsNeverExcuseIdentity | src/main/java/io/repaint/maven/tiles/TileValidator.java:79-97 | an identity, a parent or build extensions make a tile invalid whatever smells are allowed |
| TileValidator.BoundTileNeverValid | src/main/java/io/repaint/maven/tiles/TileValidator.java:79-97 | a tile bound to an artifact has an identity and never validates |
| TileValidator.LoadModel | src/main/java/io/repaint/maven/tiles/TileValidator.java:35-69 | a bad smell list fails before the file is looked at; a missing file gives nothing; a present file gives the loaded model itself exactly when it validates |
| TileValidator.SmellNamesAreCaseSensitive | src/main/java/io/repaint/maven/tiles/TileValidator.java:44-51 | example only, not a general property: "Dependencies" is not a smell and fails whatever the file |
| Discovery.Cleared | src/main/java/io/repaint/maven/tiles/TilesMavenLifecycleParticipant.java:468-473 | clearing empties every collection and keeps `applyBefore`, which is not reset between projects |
| Discovery.QueuedKeepsInvariants | src/main/java/io/repaint/maven/tiles/TilesMavenLifecycleParticipant.java:1056-1081 | queuing keeps the discovery invariants: references stay in the arena, keys are `artifactName`s, known keys are in the order |
| Discovery.ProcessConfigurationTile | src/main/java/io/repaint/maven/tiles/TilesMavenLifecycleParticipant.java:1056-1081 | fails exactly when the reference does not parse, with the parser's error; a new key is queued with its artifact and appended once to the order; a key already processed or queued leaves the state as it was |
| Discovery.ProcessTwiceIsOnce | src/main/java/io/repaint/maven/tiles/TilesMavenLifecycleParticipant.java:1056-1081 | queuing the same reference twice is queuing it once |
| Discovery.SameKeyIsRepeat | src/main/java/io/repaint/maven/tiles/TilesMavenLifecycleParticipant.java:1058-1081 | after one reference, another with the same group and artifact changes nothing, whatever its version, type or classifier |
| Discovery.ProcessAll | src/main/java/io/repaint/maven/tiles/TilesMavenLifecycleParticipant.java:1030-1032 | fails exactly when some entry is absent or malformed; otherwise every entry's key is known afterwards |
| Discovery.TilesConfiguration | src/main/java/io/repaint/maven/tiles/TilesMavenLifecycleParticipant.java:1019-1028 | the configuration of the first tiles plugin that has one, and none exactly when no tiles plugin has one |
| Discovery.ParseConfiguration | src/main/java/io/repaint/maven/tiles/TilesMavenLifecycleParticipant.java:1016-1039 | without a `tiles` block nothing changes; otherwise the entries are queued, failing exactly on a bad one, and `applyBefore` becomes the child's value or "false" |
| Discovery.ParseForExtendedSyntax | src/main/java/io/repaint/maven/tiles/TilesMavenLifecycleParticipant.java:1048-1054 | fails exactly when one of the tile's own references or of its tiles-plugin `tiles` entries does not parse; otherwise every one of them is queued or processed, and `applyBefore` is set from that configuration as in `parseConfiguration` (unchanged without a `tiles` block) |
| Discovery.ParseForExtendedSyntaxIdempotent | src/main/java/io/repaint/maven/tiles/TilesMavenLifecycleParticipant.java:1048-1054 | reading a tile's references a second time changes nothing |
| Discovery.HasProperty | src/main/java/io/repaint/maven/tiles/TilesMavenLifecycleParticipant.java:915-921 | true exactly when the property is "true"; the property is removed whatever its value; nothing else changes |
| Discovery.EnsureAllTilesDiscoveredAreAccountedFor | src/main/java/io/repaint/maven/tiles/TilesMavenLifecycleParticipant.java:1000-1010 | every key left in the order is processed, every processed key of the order survives, survivors keep their relative order, and nothing else changes |
| Discovery.PruneIdempotent | src/main/java/io/repaint/maven/tiles/TilesMavenLifecycleParticipant.java:1000-1010 | pruning twice is pruning once |
| Merger.Register | src/main/java/io/repaint/maven/tiles/TilesMavenLifecycleParticipant.java:931-939 | fails exactly when the tile has no build; otherwise every `group:artifact:id` of its executions now names the tile and other ids are unchanged |
| Merger.ExecutionId | src/main/java/io/repaint/maven/tiles/TilesMavenLifecycleParticipant.java:935 | the plugin group, plugin artifact and execution id joined by colons |
| Merger.ExecutionIdIdentity | src/main/java/io/repaint/maven/tiles/TilesMavenLifecycleParticipant.java:935 | within one plugin two executions share an id exactly when their own ids are equal |
| Merger.MergeProperties | src/main/java/io/repaint/maven/tiles/TilesMavenLifecycleParticipant.java:967-971 | the target's properties become the union, the fragment winning on collisions; nothing else changes |
| Merger.MergePropertiesIdempotent | src/main/java/io/repaint/maven/tiles/TilesMavenLifecycleParticipant.java:967-971 | merging the same fragment again changes nothing |
| Merger.MergeExecution | src/main/java/io/repaint/maven/tiles/TilesMavenLifecycleParticipant.java:981-991 | without a `tiles-append` attribute the execution is unchanged; with one, the last child of that name gains the fragment's children after its own; missing configurations are null dereferences |
| Merger.MergeExecutions | src/main/java/io/repaint/maven/tiles/TilesMavenLifecycleParticipant.java:978-993 | only executions whose id is the fragment's change, each as above |
| Merger.MergePlugins | src/main/java/io/repaint/maven/tiles/TilesMavenLifecycleParticipant.java:978-994 | plugins keep their shape; each plugin's executions are merged as above |
| Merger.MergeExecutionConfiguration | src/main/java/io/repaint/maven/tiles/TilesMavenLifecycleParticipant.java:976-995 | only executions with the fragment's id change, each as above; everything else in the target model is unchanged; a missing build is a null dereference |
| Merger.Sites | src/main/java/io/repaint/maven/tiles/TilesMavenLifecycleParticipant.java:933-934 | every visited site is an execution of one of the plugins |
| Merger.SitesComplete | src/main/java/io/repaint/maven/tiles/TilesMavenLifecycleParticipant.java:933-934 | every execution of every plugin is visited |
| Merger.FragmentId | src/main/java/io/repaint/maven/tiles/TilesMavenLifecycleParticipant.java:939 | the fragment model's group and artifact joined by a colon, "null" for a missing field |
| Merger.MergeModel | src/main/java/io/repaint/maven/tiles/TilesMavenLifecycleParticipant.java:944-945 | merging a fragment into one model site by site stops at the first failure, a null dereference, and no site changes nothing |
| Merger.MergeInto | src/main/java/io/repaint/maven/tiles/TilesMavenLifecycleParticipant.java:944-945 | one merge step fails exactly when the properties-then-configuration merge of the target fails; otherwise only the target tile changes, its model becomes that merge, and it keeps its references and file |
| Merger.MergeSites | src/main/java/io/repaint/maven/tiles/TilesMavenLifecycleParticipant.java:931-958 | an execution id with no registered target fails, and the error carries `tile-merge-expected-target` when set, the fragment's `group:artifact` and the id; on success only the arena changes, and the registered targets gain the fragment's properties |
| Merger.MergeSitesPerTarget | src/main/java/io/repaint/maven/tiles/TilesMavenLifecycleParticipant.java:931-958 | with every id registered, the loop fails exactly when some tile's own sequence of merge steps fails, and otherwise each tile holds the model its own sequence produces |
| Merger.MergeTileIntoTarget | src/main/java/io/repaint/maven/tiles/TilesMavenLifecycleParticipant.java:927-958 | fails exactly when the fragment has no build, one of its execution ids has no target, or some target's own sequence of merge steps fails; on success every tile holds the model its sequence gives (properties, then the append merge, for each of the fragment's executions registered to it, in order) and only the arena changes |
| Loader.LoadModel | src/main/java/io/repaint/maven/tiles/TilesMavenLifecycleParticipant.java:294-305 | a loaded tile carries the resolved artifact and that artifact's identity; resolution failures pass through |
| Loader.Accept | src/main/java/io/repaint/maven/tiles/TilesMavenLifecycleParticipant.java:895-901 | fails exactly when a merge target has no build or one of the tile's references does not parse; on success the key is processed as an entry for a new tile object holding the model without `tile-merge-target`, a merge target registers every one of its execution ids to that object while another tile leaves the registrations alone, each reference of the tile is processed or queued, and no queued key or other entry is lost |
| Loader.Step | src/main/java/io/repaint/maven/tiles/TilesMavenLifecycleParticipant.java:882-902 | a failed load ends the run with its error; otherwise the key leaves the worklist and is processed or held, the held tiles only extend, every other queued key stays queued, and no reference of a processed tile is lost |
| Loader.Take | src/main/java/io/repaint/maven/tiles/TilesMavenLifecycleParticipant.java:884-901 | the loaded tile settles its key (processed or held), keeps the invariants, and loses no reference of a processed tile |
| Loader.TakeHolds | src/main/java/io/repaint/maven/tiles/TilesMavenLifecycleParticipant.java:884-889 | a merge source is held as the loaded tile without its flag, and only its key leaves the worklist |
| Loader.TakeAccepts | src/main/java/io/repaint/maven/tiles/TilesMavenLifecycleParticipant.java:895-901 | any other tile fails exactly as accepting it does, and otherwise its key is processed as an entry for a new tile object, the loaded tile without either flag; nothing is held |
| Loader.Drain | src/main/java/io/repaint/maven/tiles/TilesMavenLifecycleParticipant.java:880-903 | on success the worklist is empty, every key queued on entry is processed or held, the state and the held tiles only grow, and no reference of a processed tile is lost; running out of fuel with work left fails |
| Loader.Roots | src/main/java/io/repaint/maven/tiles/TilesMavenLifecycleParticipant.java:876-904 | every root ends processed or held, the worklist ends empty, and when the roots were the only unsettled references on entry, every reference of every processed tile ends processed or held |
| Loader.MergeAll | src/main/java/io/repaint/maven/tiles/TilesMavenLifecycleParticipant.java:906-910 | merging no fragment changes nothing; only the arena changes, its size is kept, and no tile object gains or loses a reference |
| Loader.MergeAllSnoc | src/main/java/io/repaint/maven/tiles/TilesMavenLifecycleParticipant.java:906-910 | merging one more fragment is merging the others, then that fragment into their result: a left fold of `mergeTileIntoTarget` in load order |
| Loader.MergedOnlyReferences | src/main/java/io/repaint/maven/tiles/TilesMavenLifecycleParticipant.java:976-995 | a merged tile declares the same references as before the merge |
| Loader.LoadAllDiscoveredTiles | src/main/java/io/repaint/maven/tiles/TilesMavenLifecycleParticipant.java:873-913 | nothing is left unprocessed; the order names exactly the processed keys; what was processed stays processed; every root is processed or held; the result is the drained state with every held merge source merged into its targets by `MergeAll`, in load order, and the order then pruned (`Discovered` via `MergedHeld`); and when every reference was processed or queued on entry, every reference of every processed tile is processed or held afterwards |
| Loader.Enumerate | src/main/java/io/repaint/maven/tiles/TilesMavenLifecycleParticipant.java:488 | a `HashMap` iteration lists every key exactly once |
| Loader.ProcessedTiles | src/main/java/io/repaint/maven/tiles/TilesMavenLifecycleParticipant.java:488 | one tile per processed key, each with an identity, and every processed tile is among them |
| Loader.OrchestrateMerge | src/main/java/io/repaint/maven/tiles/TilesMavenLifecycleParticipant.java:466-484 | after clearing, parsing and loading, nothing is left unprocessed, the order and the processed keys agree, the result is `Discovered` from the parsed declaration, so the held merge sources are merged into their targets, every tile the project declares and every reference of every processed tile is processed or held, and one tile with an identity is handed to the splice per processed key, each processed tile among them; a project that declares no tiles and names no target yields none |
| ParentChain.Evaluate | src/main/java/io/repaint/maven/tiles/TilesMavenLifecycleParticipant.java:1090-1101 | a missing value stays missing; a present value goes to the evaluator, which may itself yield nothing (`null` for an undefined expression) |
| ParentChain.EvaluatedParent | src/main/java/io/repaint/maven/tiles/TilesMavenLifecycleParticipant.java:751-754 | the original parent with its version evaluated, or none |
| ParentChain.LinkTo | src/main/java/io/repaint/maven/tiles/TilesMavenLifecycleParticipant.java:779-782 | the new parent prints as the model's own `group:artifact:version` |
| ParentChain.CacheKey | src/main/java/io/repaint/maven/tiles/TilesMavenLifecycleParticipant.java:734 | the cache accepts the key built from group, artifact, evaluated version and "raw", for a model whose group, artifact and evaluated version are present |
| ParentChain.CacheAll | src/main/java/io/repaint/maven/tiles/TilesMavenLifecycleParticipant.java:728-735 | caching the tiles succeeds exactly when each has a group, an artifact and a version that evaluates to a value |
| ParentChain.CacheAllDomain | src/main/java/io/repaint/maven/tiles/TilesMavenLifecycleParticipant.java:728-735 | caching adds exactly the tiles' keys |
| ParentChain.CacheAllUntouched | src/main/java/io/repaint/maven/tiles/TilesMavenLifecycleParticipant.java:728-735 | entries under keys no tile uses survive |
| ParentChain.CacheAllLastWins | src/main/java/io/repaint/maven/tiles/TilesMavenLifecycleParticipant.java:728-735 | a tile that no later tile shares a key with is cached as its own file and model |
| ParentChain.Relink | src/main/java/io/repaint/maven/tiles/TilesMavenLifecycleParticipant.java:776-797 | each tile changes only its parent: the next tile, and for the last one the given top |
| ParentChain.Backfill | src/main/java/io/repaint/maven/tiles/TilesMavenLifecycleParticipant.java:763-770 | a missing coordinate is taken from the parent, a present one is kept |
| ParentChain.InjectTilesIntoParentStructure | src/main/java/io/repaint/maven/tiles/TilesMavenLifecycleParticipant.java:745-815 | fails exactly when tiles meet a project with a missing group or version and no parent, or a tile that cannot be keyed; the chain is project → t1 → … → tN → evaluated original parent; with tiles the project pins its real group and version; without tiles only the parent version is evaluated and the cache is untouched |
| ParentChain.SpliceCacheDomain | src/main/java/io/repaint/maven/tiles/TilesMavenLifecycleParticipant.java:785-814 | the splice adds exactly the tiles' keys to the cache |
| ParentChain.SpliceCachesLinked | src/main/java/io/repaint/maven/tiles/TilesMavenLifecycleParticipant.java:785-814 | the splice caches the re-parented tiles, which have the keys of the tiles given |
| ParentChain.SpliceCacheUntouched | src/main/java/io/repaint/maven/tiles/TilesMavenLifecycleParticipant.java:785-814 | other cache entries survive the splice |
| ParentChain.SpliceCachesTile | src/main/java/io/repaint/maven/tiles/TilesMavenLifecycleParticipant.java:785-814 | each tile (unless a later one shares its key) is cached with its file and its re-parented model |
| ParentChain.SpliceKeepsCoordinates | src/main/java/io/repaint/maven/tiles/TilesMavenLifecycleParticipant.java:760-771 | re-parenting onto the tiles keeps the project's real group id and `group:artifact` |
| ParentChain.NoTilesNoSplice | src/main/java/io/repaint/maven/tiles/TilesMavenLifecycleParticipant.java:751-756 | without tiles the splice succeeds, the parent keeps its place with its version evaluated, and the cache is untouched |
| ReadInterceptor.IsProjectModelAsWritten | src/main/java/io/repaint/maven/tiles/TilesMavenLifecycleParticipant.java:558-561 | the read is the project's exactly when artifact, real group, evaluated real version (or "0-SNAPSHOT") and packaging match; a missing artifact, or a missing group or evaluated version the comparison reaches, is a null dereference, including a version the evaluator turns into `null` |
| ReadInterceptor.IsProjectModelIntended | src/main/java/io/repaint/maven/tiles/TilesMavenLifecycleParticipant.java:558-561 | as above, but a version that is missing or evaluates to `null` counts as a match |
| ReadInterceptor.IsTileModel | src/main/java/io/repaint/maven/tiles/TilesMavenLifecycleParticipant.java:574-580 | a tile is the read model exactly when artifact and real group are the identical objects and the real versions are equal; when the identities match, a missing read version is a null dereference |
| ReadInterceptor.IsTileModelMatchesIdentity | src/main/java/io/repaint/maven/tiles/TilesMavenLifecycleParticipant.java:574-580 | when `sameRef` implies equality, as Java `==` on strings does, a tile found as the read model has its artifact, real group and real version |
| ReadInterceptor.FindTile | src/main/java/io/repaint/maven/tiles/TilesMavenLifecycleParticipant.java:574-582 | the first matching tile, or none when no tile matches |
| ReadInterceptor.DecideWith | src/main/java/io/repaint/maven/tiles/TilesMavenLifecycleParticipant.java:562-587 | at the project level the tiles go in unless in named mode; elsewhere they go in at the target `group:artifact`; at a tile or pom packaging a matching tile model is handed back |
| ReadInterceptor.DecideAsWritten | src/main/java/io/repaint/maven/tiles/TilesMavenLifecycleParticipant.java:557-591 | the decision with named mode read as `parseBoolean(applyBefore)` |
| ReadInterceptor.DecideIntended | src/main/java/io/repaint/maven/tiles/TilesMavenLifecycleParticipant.java:557-591 | the decision with named mode meaning a target is configured |
| ReadInterceptor.Apply | src/main/java/io/repaint/maven/tiles/TilesMavenLifecycleParticipant.java:564-586 | injecting splices the state's tiles, marks the build injected and keeps the re-parented tiles in the state; substituting returns the tile's model as the state now holds it; otherwise nothing changes |
| ReadInterceptor.SubstituteAfterInject | src/main/java/io/repaint/maven/tiles/TilesMavenLifecycleParticipant.java:776-797 | a tile handed back after the splice is the re-parented one: its parent is the next tile, or for the last tile the project's original parent with its version evaluated, and nothing else of it changes |
| ReadInterceptor.Evict | src/main/java/io/repaint/maven/tiles/TilesMavenLifecycleParticipant.java:596-600 | in named mode before the injection, the returned model's parent is evicted from the cache; otherwise nothing changes |
| ReadInterceptor.ReadAsWritten | src/main/java/io/repaint/maven/tiles/TilesMavenLifecycleParticipant.java:540-603 | a read becomes injected only by an injecting decision, and a passing read only evicts |
| ReadInterceptor.ReadIntended | src/main/java/io/repaint/maven/tiles/TilesMavenLifecycleParticipant.java:540-603 | the same with the intended decision |
| ReadInterceptor.FinishAsWritten | src/main/java/io/repaint/maven/tiles/TilesMavenLifecycleParticipant.java:613-616 | the build fails with the target named exactly when nothing was injected and `parseBoolean(applyBefore)` holds |
| ReadInterceptor.FinishIntended | src/main/java/io/repaint/maven/tiles/TilesMavenLifecycleParticipant.java:613-616 | the build fails with the target named exactly when nothing was injected and a target is configured |
| ReadInterceptor.NamedTargetIgnoredAtProjectAsWritten | src/main/java/io/repaint/maven/tiles/TilesMavenLifecycleParticipant.java:563-566 | as written, a `group:artifact` target still injects at the project level, exactly as no target does |
| ReadInterceptor.NamedTargetNeverEvictsAsWritten | src/main/java/io/repaint/maven/tiles/TilesMavenLifecycleParticipant.java:596 | as written, a `group:artifact` target never evicts |
| ReadInterceptor.MissingTargetUnreportedAsWritten | src/main/java/io/repaint/maven/tiles/TilesMavenLifecycleParticipant.java:613 | as written, a `group:artifact` target never met does not fail the build |
| ReadInterceptor.NamedTargetWaitsIntended | src/main/java/io/repaint/maven/tiles/TilesMavenLifecycleParticipant.java:563 | as intended, a configured target holds the tiles back at the project level |
| ReadInterceptor.NamedTargetInjectsIntended | src/main/java/io/repaint/maven/tiles/TilesMavenLifecycleParticipant.java:567-570 | as intended, the tiles go in at the read whose `group:artifact` is the target |
| ReadInterceptor.MissingTargetReportedIntended | src/main/java/io/repaint/maven/tiles/TilesMavenLifecycleParticipant.java:613-616 | as intended, a configured target never met fails, naming it |
| ReadInterceptor.EvictionIntended | src/main/java/io/repaint/maven/tiles/TilesMavenLifecycleParticipant.java:596-600 | as intended, reads before the injection evict their parent and reads after it do not |
| ReadInterceptor.NullVersionFailsAsWritten | src/main/java/io/repaint/maven/tiles/TilesMavenLifecycleParticipant.java:558-560 | as written, the project's own descriptor whose version is missing or evaluates to `null` (an undefined `${revision}`, say) fails with a null dereference |
| ReadInterceptor.NullVersionAcceptedIntended | src/main/java/io/repaint/maven/tiles/TilesMavenLifecycleParticipant.java:558-561 | as intended, that descriptor is recognised as the project's |
| ReadInterceptor.ProjectTestsAgree | src/main/java/io/repaint/maven/tiles/TilesMavenLifecycleParticipant.java:558-561 | wherever the written test does not fail, the intended one gives the same answer |
| Writeback.PluginKey | src/main/java/io/repaint/maven/tiles/TilesMavenLifecycleParticipant.java:857 | `group:artifact` of the plugin, the same text `artifactName` gives any artifact with that group and artifact |
| Writeback.PluginKeyIdentity | src/main/java/io/repaint/maven/tiles/TilesMavenLifecycleParticipant.java:857 | two plugins share a key exactly when group and artifact agree |
| Writeback.PluginByKey | src/main/java/io/repaint/maven/tiles/TilesMavenLifecycleParticipant.java:857 | the last managed plugin with the key, and none exactly when no plugin has it |
| Writeback.ReplaceFirstRoot | src/main/java/io/repaint/maven/tiles/TilesMavenLifecycleParticipant.java:840-853 | the first root becomes the directory, every other root and the length are unchanged, and an empty list is an index error |
| Writeback.ReplaceFirstRootIdempotent | src/main/java/io/repaint/maven/tiles/TilesMavenLifecycleParticipant.java:840-853 | replacing the first root twice is replacing it once |
| Writeback.UpdateRoots | src/main/java/io/repaint/maven/tiles/TilesMavenLifecycleParticipant.java:840-853 | roots change only when the build declares the directory |
| Writeback.CopySections | src/main/java/io/repaint/maven/tiles/TilesMavenLifecycleParticipant.java:817-837 | the effective model's sections replace the project's, and identity, packaging and parent are kept |
| Writeback.AddManagedPlugin | src/main/java/io/repaint/maven/tiles/TilesMavenLifecycleParticipant.java:858-870 | the original model gets a build and plugin management if missing, and the plugin is added last to the existing managed plugins; nothing else changes |
| Writeback.CopyModel | src/main/java/io/repaint/maven/tiles/TilesMavenLifecycleParticipant.java:817-871 | fails exactly on a missing build or plugin management (null dereference) or a declared directory over an empty root list; otherwise copies the sections, updates the roots, and carries an m2e lifecycle-mapping plugin to the original model |
| Writeback.CopyModelStable | src/main/java/io/repaint/maven/tiles/TilesMavenLifecycleParticipant.java:817-853 | copying the same effective model again leaves the project model and roots as they were |
| Writeback.DeploymentUrl | src/main/java/io/repaint/maven/tiles/TilesMavenLifecycleParticipant.java:426-457 | the specific `alt…` property, else `altDeploymentRepository`, else the repository's URL; a missing repository is a null dereference |
| Writeback.ReleaseUrl | src/main/java/io/repaint/maven/tiles/TilesMavenLifecycleParticipant.java:426-435 | a missing distribution management or release repository is a null dereference; `altReleaseDeploymentRepository` wins; without it `altDeploymentRepository`, and without both the release repository's URL (read through `ReleaseRepository`); no URL only when neither property is set and the repository has none |
| Writeback.SnapshotUrl | src/main/java/io/repaint/maven/tiles/TilesMavenLifecycleParticipant.java:448-457 | a missing distribution management or snapshot repository is a null dereference; `altSnapshotDeploymentRepository` wins; without it `altDeploymentRepository`, and without both the snapshot repository's URL (read through `SnapshotRepository`); no URL only when neither property is set and the repository has none |
| Writeback.SharedAltUrl | src/main/java/io/repaint/maven/tiles/TilesMavenLifecycleParticipant.java:426-457 | `altDeploymentRepository` alone sends releases and snapshots to the same URL |
| Writeback.OwnUrlsWithoutOverrides | src/main/java/io/repaint/maven/tiles/TilesMavenLifecycleParticipant.java:426-457 | without any `alt…` property each kind uses its own repository's URL |
| ProjectBuilder.ExtractTileVersion | src/main/java/io/repaint/maven/tiles/TilesProjectBuilder.java:110-118 | the recommended version when the range has one, else the text as given, also for an invalid range |
| ProjectBuilder.TileDependency | src/main/java/io/repaint/maven/tiles/TilesProjectBuilder.java:91-103 | the added dependency has compile scope; three fields give type "xml" and no classifier; five fields give type and classifier from fields 2 and 3 |
| ProjectBuilder.AddTileDependencies | src/main/java/io/repaint/maven/tiles/TilesProjectBuilder.java:79-105 | succeeds exactly when every entry is present and has 3 or 5 fields; only appends |
| ProjectBuilder.AddDeclaresEveryTile | src/main/java/io/repaint/maven/tiles/TilesProjectBuilder.java:87-105 | afterwards every listed tile's group and artifact is declared |
| ProjectBuilder.AddFromTiles | src/main/java/io/repaint/maven/tiles/TilesProjectBuilder.java:90-104 | every appended dependency is the dependency of a listed tile |
| ProjectBuilder.AddOnlyNew | src/main/java/io/repaint/maven/tiles/TilesProjectBuilder.java:87-90 | an appended dependency's group and artifact were declared by nothing before it |
| ProjectBuilder.AllDeclaredAddsNothing | src/main/java/io/repaint/maven/tiles/TilesProjectBuilder.java:87-90 | when every tile is already declared nothing is added |
| ProjectBuilder.BuildPlugins | src/main/java/io/repaint/maven/tiles/TilesProjectBuilder.java:69-72 | a missing build reads as no plugins; a present one gives its plugins |
| ProjectBuilder.FirstTilesPlugin | src/main/java/io/repaint/maven/tiles/TilesProjectBuilder.java:69-76 | the first tiles plugin, configured or not, and none exactly when there is none |
| ProjectBuilder.ListedTiles | src/main/java/io/repaint/maven/tiles/TilesProjectBuilder.java:70-78 | without a tiles plugin, or when the first one has no configuration, no entries; otherwise one entry per `tiles` child of the first tiles plugin's configuration, in order, holding that child's value |
| ProjectBuilder.InjectTileDependencies | src/main/java/io/repaint/maven/tiles/TilesProjectBuilder.java:67-108 | without the tiles plugin the project is unchanged; otherwise only the dependencies change, from the entries `ListedTiles` reads off the first tiles plugin, failing exactly on an unusable entry |
| ProjectBuilder.InjectTileDependenciesIdempotent | src/main/java/io/repaint/maven/tiles/TilesProjectBuilder.java:87-90 | injecting a second time adds nothing |
| ProjectBuilder.InjectAll | src/main/java/io/repaint/maven/tiles/TilesProjectBuilder.java:120-125 | every result is injected in turn, and the list fails exactly when one does |
| Xpp3.GetAttribute | src/main/java/io/repaint/maven/tiles/TilesMavenLifecycleParticipant.java:983 | present exactly when the attribute is set, with its value |
| Xpp3.GetChildren | src/main/java/io/repaint/maven/tiles/ConfigurationHelper.java:15 | every child with the name, in document order, as many as there are |
| Xpp3.GetChild | src/main/java/io/repaint/maven/tiles/TilesMavenLifecycleParticipant.java:983-985 | `getChild` finds a child with the name exactly when the element has one |
| Xpp3.GetChildIsLast | src/main/java/io/repaint/maven/tiles/TilesMavenLifecycleParticipant.java:983-985 | the child found is the last child with the name: no later child shares it |
| Xpp3.ReplaceChild | src/main/java/io/repaint/maven/tiles/TilesMavenLifecycleParticipant.java:983-987 | replacing the found child changes only it, and the replacement is then what `getChild` finds |
| Xpp3.AppendChildren | src/main/java/io/repaint/maven/tiles/TilesMavenLifecycleParticipant.java:987 | the merge as modelled: the target keeps name, value and attributes and gains the source's children after its own |

## Left out

- Repository and version-range resolution are left out: `resolveTile`, `resolveVersionRange`, model sources and resolvers, and the creation of distribution repositories. They are network and file I/O over Maven APIs. Resolution is the `resolve` parameter of the loader environment, and `VersionRange` parsing is the `RangeParse` parameter.
- The two model-builder passes (`DefaultModelBuilder`) and the delegation to `ModelProcessor` are not modelled; they drive Maven's engine. Only the per-read decision, the eviction and the final check are modelled.
- The CI-friendly `${revision}` patch before the decision (TilesMavenLifecycleParticipant.java:551-553) is left out. It writes the project version into the read model's parent.
- Maven's expression evaluator behind `evaluateString` is a parameter of type `string -> Option<string>`, so a present value may evaluate to `null`, as an undefined `${…}` expression does. The source returns the raw value when evaluation fails or there is no session (TilesMavenLifecycleParticipant.java:1090-1101); the parameter may be chosen to do the same, but the evaluator's own rules are not modelled.
- `DefaultArtifact` (Maven's) is not part of this model beyond its identity check. That check rejects a blank group id, and it only null-checks the artifact id, type and version, which a split reference never leaves null. `VersionRange.createFromVersion` wraps the version text without parsing it.
- The prohibited-topology check in `afterProjectsRead` is left out, because it compares strings by reference.
- Logging and log messages are left out; only the data in exceptions is modelled.
- The XML reader is left out. `MavenXpp3Reader` is the `parse` parameter, and the XOM document and its XPath queries are an abstract element tree with a `Select` function.
- Xpp3.AppendChildren: `Xpp3Dom.mergeXpp3Dom(target, source, false)` in plexus-utils is not modelled. That library puts the recessive (source) children first and also merges values and attributes; the model appends the source's children after the target's.
- `HashMap` iteration order is the `pick` chooser. The "move to end" re-puts therefore have no modelled effect, and no FIFO order is claimed.
- Loader.Drain: the worklist runs on fuel and fails with `OutOfFuel` when the fuel is spent. The Java loop has no such bound.
- The filtering helpers, the mojos, the lifecycle-mapping and artifact-handler providers, the constants and the legacy `it.session` package are left out. They are file handling, wiring or constants.
- `MavenProject.getBuild` creates an empty build on demand. `ProjectBuilder.BuildPlugins` therefore reads a missing build as no plugins.

## Findings

| source | as written | input that shows it | evidently intended | confidence | as-written member | corrected member |
|---|---|---|---|---|---|---|
| src/main/java/io/repaint/maven/tiles/TilesMavenLifecycleParticipant.java:563 | named mode is tested with `parseBoolean(applyBeforeParent)` (also at lines 596 and 613), but `applyBefore` holds a `group:artifact` name, and `parseBoolean` is false for any text with a colon | `<applyBefore>com.example:parent</applyBefore>`: the tiles go in above the project (line 564) and again at the named parent (line 569); no parent is evicted; a target that is never met raises no error | a configured target defers the injection to the read of that `group:artifact`, evicts parents until then, and fails the build when it is never met | high, not executed | ReadInterceptor.NamedTargetIgnoredAtProjectAsWritten | ReadInterceptor.NamedTargetWaitsIntended |
| src/main/java/io/repaint/maven/tiles/TilesMavenLifecycleParticipant.java:559-560 | `evaluateString(getRealVersion(model)).equals(project.getVersion())` is evaluated before the disjunct `evaluateString(getRealVersion(model)) == null`; whenever the evaluated version is null the `.equals` has already thrown, so that disjunct can never be reached | the project's own descriptor, with artifact and group matching the project, and no version of its own or from a parent, or a version such as `${revision}` that the evaluator turns into null: a `NullPointerException` escapes the read | a missing or null-evaluating version counts as the project's, so the read is recognised as the project level | medium, not executed | ReadInterceptor.NullVersionFailsAsWritten | ReadInterceptor.NullVersionAcceptedIntended |
