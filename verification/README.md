# GraphBlocks: verified models of the schema preflight and the release evidence checks

This project models, in Dafny, the parts of GraphBlocks that decide whether something untrusted may
go further, and proves for all inputs what those decisions mean.

* **Schema execution preflight.** Python objects are references into a finite heap (`ObjectHeap`), so
  cycles and sharing are real. `ShapeMetrics` is the explicit-stack traversal with leave markers,
  specified by the tree unfolding of the object graph; `RegexScanner` is the character scanner,
  specified by the syntax of patterns and, in `RegexTokens`, by the tokens of any string; `SchemaWalk` is
  the worklist over subschemas and local references, specified by reachability; `SchemaMeaning` says what
  it decides in terms of the entries of the mappings and the text of the patterns; `SchemaPolicy` puts all
  this together.
* **Immutable JSON snapshots.** `Freeze` is the recursive traversal over a shared, mutable set of active
  containers, and `FreezeMeaning` says what a snapshot holds; `Thaw` relates freezing, thawing and the
  explicit-stack traversal; `Refreeze` lays thawed values out in the heap again and closes the round trip.
* **Release bundle logic.** `SelfDigest` re-digests version-promoted JSON bottom-up. `Sbom`,
  `SbomPlatform`, `SbomAggregate`, `SbomAggregateValid` and `SbomExact` hold the meaning of a valid
  SBOM and of its aggregation over platforms; `SbomTools`, `SbomRelease` and `SbomBuild` hold the
  dictionary-filling methods that decide and build them. `SbomRoster` builds valid platforms from a table
  of distributions; `SbomMeaning` and `SbomContents` say what an accepted and an aggregated SBOM contain;
  and `SbomCollision`, over the first-party table and the file names of `WheelNames`, a
  release they accept and one they refuse.
  `Promotion`, `PromotionGates`, `PromotionEvidence` and `PromotionAccounting` account for the signed
  reports of promotion evidence, and `PromotionSample` builds evidence that is accepted. Their payloads are
  the JSON values of `PythonJson`, compared as Python compares them, and `PromotionMeaning` says what
  accepted evidence contains, record by record.
* **Approval-gated harness.** `Harness` is the class whose methods update the event log, the consumed
  approvals and the always-allowed directories, with theorems over whole runs; `HarnessOutcomes` decides
  every call by its inputs and the state before it.
* **Closed evidence checkers.** `GateReport`, `PythonJson` and `SecurityGates` are the security-gate builder
  and validator, `GateContents` and `ReportMeaning` say what a result contains and what an accepted report
  is, and `SecurityGateCases` holds the inputs on which the two differ; `ZipArchive` reads archive members
  within byte budgets and inventories them, and `ZipMeaning` says which archives and what is read;
  `EvidenceClosure` walks the evidence directory tree. `PosixPath` is what they need of `PurePosixPath`.

Hashes, canonical encoders, regular-expression engines, `Path.resolve`, approval validity, reference
resolution and the decoders for JSON, YAML, XML and ZIP are parameters: the theorems hold whatever they
return, and a property one of them must have is a stated hypothesis.

## Where the code differs from what one might expect

* The search for a regular-expression keyword and the walk under the untrusted policy agree on every
  string-keyed schema, but not beyond: a `patternProperties` mapping whose keys are not strings stops
  the search and passes the walk (`SchemaPolicy.UntrustedMissesOpaqueKeys`). `SchemaPolicy.FindsNoneIff`
  gives the exact condition for every schema.
* Aggregating valid platform SBOMs does not always give a valid SBOM: two release files with the same
  content get the same reference. `SbomCollision.AggregateNotValid` exhibits two such platforms, and
  `SbomExact.AggregateValidIff` gives the exact condition.
* `validate_result` does not repeat the builder's check of the commit pattern: a value is accepted with
  any commit (`SecurityGateCases.MalformedCommitAccepted`, `SecurityGateCases.AnyCommitAccepted`). With
  report bytes and artifact name supplied it omits nothing else
  (`SecurityGates.ValidatorOmitsCommitPattern`); without report bytes it does not look at a report
  either, and `SecurityGates.AcceptsSomethingIff` says for each case what is left.
* `validate_result_bytes` accepts the builder's own encoding only if that encoding fits the size
  limit, which the builder does not check. The pattern of artifact names has no length bound, so a
  result with an attempt number of more than 4 MiB of digits is built and never accepted, for every
  encoder that does not shorten the strings it writes (`SecurityGateCases.LongNameRefused`, with
  `SecurityGateCases.OversizedResultRefused` as a concrete input); the exact condition is
  `SecurityGates.OneByteString`.
* The checks made on archive and repository paths (relative, its own `as_posix`, no empty, `.` or `..`
  part) accept exactly the paths without empty or dot pieces, and the single path `.`, which has no
  parts and is its own normal form (`PosixPath.ChecksAccept`). The archive reader lets it through
  (`ZipArchive.DotIsAccepted`).
* The comparison of recipe sets at the end of the integration check, and the step limit of the policy
  check when it is at least the node limit, can never raise (`PromotionEvidence.CheckIntegration`,
  `SchemaPolicy.Enforce`).

## Model

| member | source | states |
|---|---|---|
| `Unfolding.FiniteIffAcyclic` | src/graphblocks/_schema_execution.py:62-126 | a container graph unfolds to a finite tree if and only if no path from the root repeats a container or meets one that cannot be enumerated |
| `Unfolding.SimpleInsideTree` | src/graphblocks/_schema_execution.py:89-125 | a path that repeats a container rules out every finite unfolding |
| `ShapeMetrics.Measure` | src/graphblocks/_schema_execution.py:62-126 | returns normally if and only if the unfolding is finite with size and height within the limits, and then returns exactly that size and height; every refusal is a true statement about the graph; removing a leave marker never fails |
| `ShapeMetrics.EnterFrame` | src/graphblocks/_schema_execution.py:77-125 | one round on a node keeps the loop invariant and counts one node, or stops with an error that is true of the graph |
| `ShapeMetrics.RefusalExcludes` | src/graphblocks/_schema_execution.py:62-126 | each kind of refusal rules out every unfolding within the limits |
| `ShapeMetrics.StopsAreJustified` | src/graphblocks/_schema_execution.py:74-125 | under the loop invariant (active set = identities of the leave markers, pairwise distinct; every frame has its path from the root; work done plus work left is constant) each early exit has a witness in the graph |
| `RegexScanner.UsesBacktracking` | src/graphblocks/_schema_execution.py:129-157 | the character loop computes the recursive scan of the whole pattern |
| `RegexScanner.ScanItems` | src/graphblocks/_schema_execution.py:129-157 | scanning printed syntax followed by any text flags exactly risky syntax, a trailing group before a quantifier, or the text itself |
| `RegexScanner.FlaggedIffRisk` | src/graphblocks/_schema_execution.py:129-157 | for every pattern syntax the printed text is flagged if and only if it holds a digit, g or k escape, a group opening with `?`, or a group directly followed by a quantifier |
| `RegexTokens.FlaggedIffTokensRisk` | src/graphblocks/_schema_execution.py:129-157 | the same for every list of tokens, which may hold lone parentheses, an unclosed class and a trailing backslash |
| `RegexTokens.FlaggedMeans` | src/graphblocks/_schema_execution.py:129-157 | every string is the text of such a list, and is flagged if and only if a digit, g or k escape occurs in it, or a parenthesis opens with `?` or is closed before a quantifier |
| `SchemaWalk.CheckPropertyPatterns` | src/graphblocks/_schema_execution.py:226-237 | passes if and only if every string key passes the pattern check, and otherwise returns the error of one that does not |
| `SchemaWalk.VisitPatterns` | src/graphblocks/_schema_execution.py:216-237 | continuing means the mapping bears no keyword (stopping at patterns) or all its patterns pass; stopping and raising name a real offence |
| `SchemaWalk.VisitEdges` | src/graphblocks/_schema_execution.py:239-264 | continuing yields exactly the subresources and resolved local references, all references local unless remote ones are allowed |
| `SchemaWalk.Walk` | src/graphblocks/_schema_execution.py:187-266 | terminates on every finite object graph; finds nothing if and only if the reachable mappings are within the step limit and all pass, and then has counted each reachable mapping once |
| `SchemaMeaning.CheckPatternMeans` | src/graphblocks/_schema_execution.py:160-184 | a pattern passes if and only if patterns are allowed, its UTF-8 encoding is short enough and no token list of it is risky; each of the three errors is raised exactly for its reason, the first that applies |
| `SchemaMeaning.VisitedMeans` | src/graphblocks/_schema_execution.py:187-266 | the reachable mappings are those at the end of a way of subresources and of strings under `$ref` or `$dynamicRef` that are empty or begin with `#` and resolve |
| `SchemaMeaning.AcceptsMeans` | src/graphblocks/_schema_execution.py:187-266 | the walk accepts exactly the schemas with few enough reachable mappings, in each of which every pattern (under `pattern`, or a name under `patternProperties`) is allowed and every reference leads into the document |
| `SchemaMeaning.JustifiedMeans` | src/graphblocks/_schema_execution.py:187-266 | each error names what some reachable mapping has: a pattern refused for that reason, or a reference out of the document; or the number of mappings |
| `SchemaMeaning.SearchMeans` | src/graphblocks/_schema_execution.py:307-318 | looking for a keyword, the walk passes exactly when no reachable mapping uses one |
| `SchemaPolicy.Enforce` | src/graphblocks/_schema_execution.py:269-304 | admits exactly the schemas within all limits in whose reachable mappings every pattern is allowed, short enough in UTF-8 and without a risky token list, and every reference leads into the document; every refusal names its true reason; reports the exact size, height and steps; steps ≤ nodes, and the step limit cannot bind when it is at least the node limit |
| `SchemaPolicy.StepsWithinNodes` | src/graphblocks/_schema_execution.py:269-304 | reachable mappings are at most as many as the nodes of the unfolding |
| `SchemaPolicy.FindKeyword` | src/graphblocks/_schema_execution.py:307-318 | finds nothing if and only if at most 20000 mappings are reachable, none has a string under `pattern` or a non-empty mapping under `patternProperties`, and every reference leads into the document; otherwise names a keyword some reachable mapping uses |
| `SchemaPolicy.FindsNoneIff` | src/graphblocks/_schema_execution.py:187-266 | for every schema, finding nothing is acceptance under the untrusted policy plus the absence of property patterns under keys that are not strings |
| `SchemaPolicy.UntrustedAgreesWithFind` | src/graphblocks/_schema_execution.py:307-318 | for every string-keyed schema the two runs of the walk agree |
| `SchemaPolicy.UntrustedMissesOpaqueKeys` | src/graphblocks/_schema_execution.py:187-266 | a concrete schema on which they disagree |
| `Freeze.FreezeMapping` | src/graphblocks/_immutability.py:14-53 | succeeds if and only if the mapping unfolds finitely within the depth limit, clear of the active containers, with acceptable keys and leaves; returns the snapshot of that unfolding; restores the active set on success and failure |
| `Freeze.FreezeValue` | src/graphblocks/_immutability.py:56-104 | the same for any value |
| `Freeze.FreezeSequence` | src/graphblocks/_immutability.py:79-97 | the same for lists and tuples |
| `Freeze.ChildFreezes` | src/graphblocks/_immutability.py:56-104 | if a container freezes, each child freezes one level down with the container active |
| `Freeze.ContainerFreezes` | src/graphblocks/_immutability.py:56-104 | and conversely |
| `FreezeMeaning.MappingSnapshot` | src/graphblocks/_immutability.py:38-50 | for every key validator, also one that maps two keys to one: the snapshot holds every stored key once, in the order of the first entries, each with the snapshot of the last value stored under it |
| `Thaw.ThawRecast` | src/graphblocks/_immutability.py:107-114 | thawing a tuple-only value gives the list-only value, refreezing it gives the tuple-only value back, and height is kept |
| `Thaw.SnapIsRecastImage` | src/graphblocks/_immutability.py:14-104 | with any key validator that stores the string keys it accepts as they are, whichever it refuses, the snapshot is the object's value with all sequences as tuples, of the height of the unfolding |
| `Thaw.MetadataKeysKept` | src/graphblocks/approval.py:45-54 | the validator of metadata keys is one of these, whatever counts as blank or as a refused control character (`review.py` refuses no control character) |
| `Thaw.MetadataKeyMeans` | src/graphblocks/approval.py:45-54 | a key is accepted if and only if it is a non-empty text that stripping leaves as it is, without a refused character; it is stored as it is |
| `Thaw.ThawAfterFreeze` | src/graphblocks/_immutability.py:14-114 | with such a validator thaw(freeze(v)) is v with tuples turned into lists, of the same height |
| `Refreeze.AcceptableIffEncodable` | src/graphblocks/_immutability.py:98-104 | whether an object graph is acceptable to such a validator is a matter of its keys being strings and of its value, not of where it is stored |
| `Refreeze.FreezeAfterThaw` | src/graphblocks/_immutability.py:14-114 | with such a validator, wherever the thawed value is stored under string keys, freezing it succeeds and gives the same snapshot and no other |
| `Refreeze.Store` | src/graphblocks/_immutability.py:107-114 | every value with distinct keys can be laid out in an extension of a closed heap, in containers and leaves that are not in the old heap: only objects that are not JSON are shared |
| `Refreeze.FreezeThawFreeze` | src/graphblocks/_immutability.py:14-114 | with such a validator freeze(thaw(freeze(v))) equals freeze(v): if the first freeze succeeds, the thawed copy exists beside the original, shares nothing with it but objects that are not JSON, and freezes to the same snapshot |
| `Thaw.RecursiveAgreesWithIterative` | src/graphblocks/_immutability.py:14-104 | over mappings, lists and tuples with acceptable leaves and keys, the recursive freeze succeeds if and only if the explicit-stack measurement does with the same depth limit and a node limit that does not bind |
| `SelfDigest.SelfDigestsPreserved` | tools/release_supply_chain.py:681-715 | every object that carried the hash of the rest of itself still does, at the same path, at any nesting |
| `SelfDigest.PromotedAt` | tools/release_supply_chain.py:681-715 | promotion keeps every path and holds there the promotion of what was there, except at a recomputed digest |
| `SelfDigest.ShapeKept` | tools/release_supply_chain.py:681-715 | kinds, key order, lengths and non-string scalars are unchanged; a string that is not a recomputed digest is cut at the leftmost occurrences of the candidate version and joined again with the final version |
| `SelfDigest.ReplaceMeans` | tools/release_supply_chain.py:681-715 | for every text and pattern, the empty one included: replacement gives t if and only if t joins with the new part the pieces that the leftmost occurrences of the old part cut the text into |
| `SelfDigest.SelfDigestedMeans` | tools/release_supply_chain.py:681-715 | an object with distinct keys carries its own digest if and only if its `contentDigest` is the hash of its other members in their order |
| `SelfDigest.UnchangedIfAbsent` | tools/release_supply_chain.py:681-715 | a value in which the candidate version occurs in no string is returned unchanged |
| `SelfDigest.ReplaceAbsent` | tools/release_supply_chain.py:681-715 | replacing a version that does not occur changes nothing |
| `SbomTools.ReleaseArtifacts` | tools/release_supply_chain.py:2989-3022 | returns the inventory of artifact components, or fails exactly when there is none |
| `SbomTools.ComponentReferences` | tools/release_supply_chain.py:3070-3095 | succeeds if and only if references are well formed and distinct; the two tables are exactly the references and the references of each name |
| `SbomTools.DependencyGraph` | tools/release_supply_chain.py:3098-3126 | succeeds if and only if rows are well formed, distinct and about known references; the dictionary has exactly the rows |
| `SbomTools.DescribedVersions` | tools/release_supply_chain.py:3135-3141 | the versions each canonical name is described with |
| `SbomTools.Classify` | tools/release_supply_chain.py:3165-3210 | sorts the components into runtime, artifact and document, and fails exactly on malformed ones |
| `SbomRelease.CheckComponents` | tools/release_supply_chain.py:3129-3222 | accepts exactly the SBOMs whose components match artifacts and installed set |
| `SbomRelease.CheckGraph` | tools/release_supply_chain.py:3223-3246 | accepts exactly the graphs in which runtime is closed, artifacts are leaves and the document depends on all artifacts |
| `SbomRelease.CheckFirstParty` | tools/release_supply_chain.py:3247-3310 | accepts a first-party distribution exactly when it has one component and its row is its dependencies' references |
| `SbomRelease.Validate` | tools/release_supply_chain.py:3129-3310 | accepts exactly the valid SBOMs |
| `SbomMeaning.ValidFiles` | tools/release_supply_chain.py:2989-3022 | in an accepted SBOM the components marked as release artifacts are the files of the release, one for each, with the digest of the file and what its name says |
| `SbomMeaning.ValidReferences` | tools/release_supply_chain.py:3070-3095 | everything described has a reference of its own, trimmed and without control characters |
| `SbomMeaning.ValidInstalled` | tools/release_supply_chain.py:3165-3222 | every installed distribution is described once, with its version, and nothing else is described |
| `SbomMeaning.ValidRows` | tools/release_supply_chain.py:3098-3126 | rows are about known references, one for each, without repeats |
| `SbomMeaning.ValidDependencies` | tools/release_supply_chain.py:3223-3246 | what is installed has a row and depends only on what is installed; a file depends on nothing |
| `SbomMeaning.ValidBundle` | tools/release_supply_chain.py:3223-3246 | the bundle depends on exactly the files |
| `SbomMeaning.ValidFirstParties` | tools/release_supply_chain.py:3247-3310 | a first-party distribution has one reference, and its row is exactly what stands for its dependencies |
| `Sbom.AcceptedIsClosed` | tools/release_supply_chain.py:3165-3246 | in every accepted SBOM the references partition into runtime, artifact and document, runtime bijects with the installed set, dependency paths of any length from runtime stay in runtime, and the document reaches exactly the artifacts |
| `Sbom.RuntimeBijection` | tools/release_supply_chain.py:3165-3222 | runtime components correspond one to one to installed distributions |
| `Sbom.DocumentReachesArtifacts` | tools/release_supply_chain.py:3223-3246 | along paths of any length the document reaches the artifacts and nothing else |
| `SbomBuild.Merge` | tools/release_supply_chain.py:4150-4188 | the union of dictionaries, or two that disagree on a key |
| `SbomBuild.Aggregate` | tools/release_supply_chain.py:3804-3901 | returns an SBOM with exactly the carried and released components and the merged rows, or fails exactly when a platform's tables are malformed or platforms disagree on a reference |
| `SbomContents.AggregateComponents` | tools/release_supply_chain.py:3804-3901 | whatever aggregation returns: every component of a platform that is not a release artifact is in it, without its local archive references, with its other references in order and every other field unchanged, a list left empty being absent; so is every file of the release with its digest and properties; nothing else is, and no local archive is mentioned |
| `SbomContents.AggregateDependencies` | tools/release_supply_chain.py:3858-3901 | in the aggregate the bundle depends on the files of the release, and anything else on exactly what some platform says it depends on |
| `SbomAggregateValid.AggregationPreservesValidity` | tools/release_supply_chain.py:3804-3901 | if every platform SBOM is valid for its own artifacts and installed set and the platforms are compatible, whatever aggregation returns is valid for the merged ones |
| `SbomAggregateValid.PlatformRowExact` | tools/release_supply_chain.py:3247-3310 | the row of a first-party component is the same set on every platform, the references its dependencies have in the aggregate |
| `SbomExact.AggregateValidIff` | tools/release_supply_chain.py:3804-3901 | over verified platforms the aggregate is valid if and only if digests are distinct, runtime references stay apart from the release's own, depend only on the name, and mean the same component everywhere |
| `SbomCollision.AggregateNotValid` | tools/release_supply_chain.py:3804-3901 | under the first-party table of the code, with its three distributions and their dependencies installed, two verified platforms whose wheels for two operating systems have the same content merge, agree on every reference and aggregate, and the aggregate is not valid |
| `SbomCollision.AggregateValid` | tools/release_supply_chain.py:3804-3901 | one of them alone is verified and its aggregate is valid |
| `SbomRoster.RosterValid` | tools/release_supply_chain.py:3129-3310 | for every list of distinct distributions with canonical names that has all first parties and what they depend on, the SBOM of a platform that has them installed and releases one first-party wheel is valid |
| `WheelNames.WheelNameParses` | tools/release_supply_chain.py:2961-2973 | a wheel name written from five pieces without dashes parses to the canonical distribution, with runs of separators as one dash, and the version |
| `SbomBuild.AggregateExists` | tools/release_supply_chain.py:3804-3901 | every list of platforms has an SBOM that is its aggregate |
| `SbomExact.RefsMustFollowNames` | tools/release_supply_chain.py:3165-3222 | validity of the aggregate forces each distribution to have one reference on all platforms |
| `SbomBuild.BuildReleaseSbom` | tools/release_supply_chain.py:4150-4194 | over verified platforms a release is built if and only if the platforms merge and are compatible; differing artifacts and differing versions are reported exactly when platforms disagree on them, failed aggregation only on disagreement about a reference, and failed validation only for an aggregate that is not valid |
| `Promotion.CollectReports` | tools/release_supply_chain.py:1633-1747 | accepts exactly non-empty lists of verified artifacts with distinct digests and disjoint files; the dictionary has one entry for each |
| `Promotion.CollectRecipes` | tools/release_supply_chain.py:2420-2516 | accepts exactly the matrices whose real adapters have distinct ids, support claims without blanks or repeats, and distinct recipes with normalized test and workflow paths; the tables have one key for each recipe and the claimed pairs of each real adapter |
| `PromotionGates.CheckRegistry` | tools/release_supply_chain.py:2373-2414 | accepts exactly when the required gates are the registered ones without repeats, the inventory has distinct non-empty ids, and exactly the registered gates block the release |
| `PromotionEvidence.TallyRuns` | tools/release_supply_chain.py:2526-2657 | accepts exactly runs that are good, known and pairwise distinct, and tallies their keys, pairs and reports |
| `PromotionEvidence.CheckIntegration` | tools/release_supply_chain.py:2518-2681 | accepts exactly one good run for each recipe that together prove the support matrix; the comparison of the recipe sets never fails |
| `PromotionEvidence.CountingCovers` | tools/release_supply_chain.py:2518-2525 | as many distinct known keys as recipes are all the recipes |
| `PromotionEvidence.SupportNeedsRecipes` | tools/release_supply_chain.py:2674-2681 | accepted runs imply each real adapter has at least authentication methods × versions recipes |
| `PromotionAccounting.CheckMatrix` | tools/release_supply_chain.py:2712-2781 | accepts exactly the good, pairwise distinct supported-matrix runs and returns their attestations |
| `PromotionAccounting.IntegrationDistinct` | tools/release_supply_chain.py:2659-2671 | two accepted integration runs never share a report, although this is not checked directly and reports are compared with Python's equality |
| `PromotionAccounting.ExactAccounting` | tools/release_supply_chain.py:2251-2861 | accepted evidence uses every signed report for exactly one claim: reports = 4 + integration runs + matrix runs |
| `PromotionAccounting.AcceptedSupport` | tools/release_supply_chain.py:2674-2681 | accepted evidence implies the recipe lower bound for every real adapter |
| `PromotionAccounting.CheckClaims` | tools/release_supply_chain.py:2803-2860 | the claims checked in order, with the set of used digests, are exactly the accepted ones |
| `PromotionAccounting.Validate` | tools/release_supply_chain.py:2153-2861 | accepts exactly the accepted evidence (bindings, registry, reports, matrix and claims), which then has the exact number of reports |
| `PromotionMeaning.AcceptedBindings` | tools/release_supply_chain.py:2251-2372 | in accepted evidence a signed report has exactly the candidate's manifest fields, and another the audit claim with the candidate's ref and commit, which the audit record repeats |
| `PromotionMeaning.AcceptedArtifacts` | tools/release_supply_chain.py:1633-1747 | the signed reports of accepted evidence are verified, have digests of their own and share no file |
| `PromotionMeaning.AcceptedGates` | tools/release_supply_chain.py:2373-2414 | the required gates are the registered ones, each of them blocks the release, and no other gate does |
| `PromotionMeaning.AcceptedRun` | tools/release_supply_chain.py:2526-2657 | every accepted integration run has exactly the fields of a run, is complete and successful on the candidate, is of a recipe of a real adapter, has a result with all seven fields within the adapter's claims, and is repeated by a signed report |
| `PromotionMeaning.AcceptedRecipe` | tools/release_supply_chain.py:2659-2671 | every recipe of a real adapter has exactly one accepted run |
| `PromotionMeaning.AcceptedPair` | tools/release_supply_chain.py:2674-2681 | every pair of authentication and version that a real adapter claims is shown by the result of an accepted run |
| `PromotionMeaning.AcceptedIds` | tools/release_supply_chain.py:2526-2657 | no two accepted integration runs have the same id |
| `PromotionMeaning.AcceptedMatrix` | tools/release_supply_chain.py:2712-2781 | there are matrix runs, each signed, complete and successful on the candidate, with an id of its own |
| `PromotionMeaning.AcceptedScope` | tools/release_supply_chain.py:2782-2817 | the three open-problem counts are the integer 0 and are signed |
| `PromotionMeaning.AcceptedOwner` | tools/release_supply_chain.py:2819-2855 | the owner has signed off this release of this candidate, naming every matrix attestation in order |
| `PromotionSample.AssembledIsAccepted` | tools/release_supply_chain.py:2153-2861 | for every matrix, one good run for each recipe that together show the support pairs, one matrix run and the reports on them assemble to accepted evidence |
| `PromotionSample.SomethingIsAccepted` | tools/release_supply_chain.py:2153-2861 | some evidence is accepted, with one adapter, one recipe, a run whose result has all seven fields, and six reports |
| `Promotion.SameTexts` | tools/release_supply_chain.py:2663-2667 | payloads that Python calls equal, where `True`, `1` and `1.0` are, hold the same strings; objects and lists of any nesting are compared |
| `Harness.OpenCodeHarness.Emit` | examples/11-coding-agent-background-callbacks/harness.py:119-120 | the new event log is the old one plus one event with the next number |
| `Harness.OpenCodeHarness.Read` | examples/11-coding-agent-background-callbacks/harness.py:125-307 | the new state and the reply are those of the step function of the run semantics |
| `Harness.OpenCodeHarness.Local` | examples/11-coding-agent-background-callbacks/harness.py:309-380 | the same for `edit` and `check_python` |
| `HarnessOutcomes.ReadOutcome` | examples/11-coding-agent-background-callbacks/harness.py:125-307 | for every state and call: the target is read if and only if it is no environment file and lies in the workspace, or did not move and its directory is allowed or the call brings the unspent grant for it; the reply is `completed`, `pending_approval` or `error`, or the reader's exception, exactly in the stated cases; which approval is spent, which directory is allowed and which events are announced, in order |
| `HarnessOutcomes.LocalOutcome` | examples/11-coding-agent-background-callbacks/harness.py:309-380 | the same for `edit` and `check_python`: outside the workspace they raise before anything happens |
| `HarnessOutcomes.RunReads` | examples/11-coding-agent-background-callbacks/harness.py:125-307 | over every run the reader is called by exactly the calls that may read, once each and in their order |
| `HarnessOutcomes.GrantsLast` | examples/11-coding-agent-background-callbacks/harness.py:167-265 | over every run, after an "always" grant every later read in its directory that did not move is carried out without another approval |
| `HarnessOutcomes.SpentIsRefused` | examples/11-coding-agent-background-callbacks/harness.py:234-265 | over every run, a call that presents a spent approval and needs one is refused and reads nothing |
| `Harness.UncoveredReadsInjective` | examples/11-coding-agent-background-callbacks/harness.py:125-307 | over every run, distinct outside reads not covered by a granted directory consume distinct approvals, each in its own call |
| `Harness.UncoveredReadsBounded` | examples/11-coding-agent-background-callbacks/harness.py:125-307 | over every run such reads are at most as many as the consumed approvals |
| `Harness.DirectoriesGranted` | examples/11-coding-agent-background-callbacks/harness.py:125-307 | every always-allowed directory came from a consumed "always" approval for an outside target in it |
| `Harness.OutsideReadsAuthorized` | examples/11-coding-agent-background-callbacks/harness.py:125-307 | an outside target reaches the reader only if it resolves to the same path again and through an approval of this call or a directory granted earlier |
| `Harness.RunSafety` | examples/11-coding-agent-background-callbacks/harness.py:119-380 | all of these together over every run: injective and bounded uncovered reads, granted directories, authorized outside reads, protected targets never read, and event numbers exactly 1..n in every state |
| `GateReport.DedupSound` | tools/stable_security_gates.py:302-328 | dropping repeats keeps the elements and leaves none twice |
| `GateReport.DedupOrder` | tools/stable_security_gates.py:302-328 | and keeps the order of first occurrences |
| `GateReport.JunitCounts` | tools/stable_security_gates.py:331-391 | accepts a report if and only if its test cases, in document order, are the distinct selectors in order and all pass; the counts are those of the report |
| `GateReport.StatusOf` | tools/stable_security_gates.py:360-366 | a test case counts as passed if and only if no child reports a failure, an error or a skip |
| `ReportMeaning.ReportMeans` | tools/stable_security_gates.py:331-391 | a report is accepted if and only if it has at most 67108864 bytes, holds neither `<!DOCTYPE` nor `<!ENTITY`, parses, and its test cases, by their places in document order, are one passing case for each distinct selector in order and no other |
| `ReportMeaning.IterPlaces` | tools/stable_security_gates.py:344 | the elements are enumerated in document order, each place once |
| `ReportMeaning.DedupMeans` | tools/stable_security_gates.py:368 | the distinct selectors stand at their first occurrences, in order |
| `PythonJson.PlainEq` | tools/stable_security_gates.py:644-651 | Python's equality, under which `True`, `1` and `1.0` are equal, is exact against a value without numbers |
| `PythonJson.PyEqTransitive` | tools/stable_security_gates.py:644-651 | Python's equality is transitive, across numbers of different kinds too |
| `PythonJson.FieldsExact` | tools/stable_security_gates.py:79-89 | an object passes the exact-shape check with given field values if and only if it is the record of those values |
| `SecurityGates.Selectors` | tools/stable_security_gates.py:302-315 | the distinct selectors of both sections, in order |
| `SecurityGates.SourcePaths` | tools/stable_security_gates.py:318-328 | the distinct source paths, the route manifest first; fails exactly when a selector has no path |
| `SecurityGates.LookupsListed` | tools/stable_security_gates.py:394-422 | every source a category looks up is in the deduplicated list |
| `SecurityGates.ListedLookedUp` | tools/stable_security_gates.py:318-328 | and apart from the route manifest nothing else is |
| `SecurityGates.CategoryResults` | tools/stable_security_gates.py:394-422 | one record for each category with the digests of its distinct sources; fails exactly when a source is missing |
| `SecurityGates.CompleteCovers` | tools/stable_security_gates.py:440-446 | with exactly the listed sources supplied no lookup can fail |
| `SecurityGates.Build` | tools/stable_security_gates.py:425-493 | succeeds exactly on a valid commit, artifact name, complete sources and all-pass report, and returns the result for them; no lookup misses |
| `GateContents.ResultMeans` | tools/stable_security_gates.py:425-493 | the result, field by field: version, commit, manifest path and digest, runner, one passed test for each distinct selector with the report's name and digest, the route manifest's digest, for each category its id, selectors and one entry for each source path with the SHA-256 of the bytes supplied for it, and the hash of all this |
| `GateContents.ResultBindsSources` | tools/stable_security_gates.py:394-493 | equal results under one manifest are for one commit, one manifest text, and sources that agree on the digest of every file |
| `GateContents.AcceptedBindsSources` | tools/stable_security_gates.py:496-671 | a value accepted for two sets of inputs under one manifest, whatever else is supplied, shows that they agree on the commit and on the digest of every source |
| `SecurityGates.CheckPytest` | tools/stable_security_gates.py:557-619 | accepts exactly the all-pass section with an admissible report identity |
| `SecurityGates.Validate` | tools/stable_security_gates.py:496-671 | accepts exactly the results for some admissible report identity and returns them unchanged, with or without report bytes and expected name |
| `SecurityGates.ValidateBytes` | tools/stable_security_gates.py:687-726 | accepts exactly the canonical encodings, within the size limit, of admitted values |
| `SecurityGates.BuilderAndValidatorAgree` | tools/stable_security_gates.py:425-671 | given report bytes and artifact name for which building succeeds, a value is accepted if and only if it is the built result |
| `SecurityGates.OneByteString` | tools/stable_security_gates.py:687-726 | then, whatever the codec, bytes are accepted if and only if they are the encoding of the built result, fit the limit, and decode to the built result |
| `SecurityGates.AcceptsSomethingIff` | tools/stable_security_gates.py:496-671 | with or without report bytes and expected name, some value is accepted if and only if the sources are complete and what is supplied passes its own checks |
| `SecurityGates.ValidatorOmitsCommitPattern` | tools/stable_security_gates.py:496-671 | with report bytes and artifact name supplied, some value is accepted and the commit is well formed if and only if building succeeds |
| `SecurityGateCases.AnyCommitAccepted` | tools/stable_security_gates.py:527-534 | in every buildable input the commit can be replaced by any string: the result is still accepted, and can be built if and only if the string is a commit |
| `SecurityGateCases.MalformedCommitAccepted` | tools/stable_security_gates.py:527-534 | a value accepted with a commit that the builder refuses |
| `SecurityGateCases.LongNameRefused` | tools/stable_security_gates.py:36 | for every host whose encoder does not shorten strings: a result whose artifact name exceeds the size limit can be built, and no bytes are accepted for it |
| `SecurityGateCases.ResultHoldsName` | tools/stable_security_gates.py:463-476 | the artifact name occurs in every built result |
| `SecurityGateCases.OversizedResultRefused` | tools/stable_security_gates.py:687-726 | such an input exists: with the patterns of the code and an encoder that writes every string out, a result that is built, encodes and decodes back, and for which no bytes are accepted |
| `SecurityGates.ResultBindsReport` | tools/stable_security_gates.py:425-493 | results for different artifact names or report digests differ |
| `ZipArchive.ReadMember` | tools/audited_source_archive.py:172-205 | the chunk loop returns the declared bytes, or the budget error exactly when more are delivered and the format error exactly when fewer are or decoding fails |
| `ZipArchive.ReadEntry` | tools/audited_source_archive.py:102-213 | admits an entry exactly when its path, type, budgets, ratio and content pass |
| `ZipArchive.ReadArchive` | tools/audited_source_archive.py:92-220 | succeeds exactly on the admissible archives; total = sum of member sizes = declared bytes ≤ limit, members are exactly the file entries, sorted, case-insensitively distinct |
| `ZipMeaning.AdmissibleMeans` | tools/audited_source_archive.py:92-220 | an archive can be read if and only if it has few enough entries and declares few enough bytes, and its entries have good names (no control character, backslash or colon; no empty or dot piece, or the single `.`) that stay apart when case is folded, good types, and for files clear content of exactly the declared size within the member budget and the real compression ratio |
| `ZipMeaning.MembersMean` | tools/audited_source_archive.py:172-220 | the members are exactly the files, under their names, with the reads up to the first empty one put together and their digest, in the order of their names |
| `ZipArchive.SortByPath` | tools/audited_source_archive.py:216-220 | a sorted permutation of the same total size |
| `ZipArchive.CheckInventory` | tools/audited_source_archive_evidence.py:430-448 | accepts exactly the consistent inventories and returns the dictionary of member bytes |
| `ZipMeaning.InventoryMeans` | tools/audited_source_archive_evidence.py:430-448 | an inventory is consistent if and only if its paths differ, each member has the size and digest of its bytes, and the total is the number of bytes of all members put together |
| `ZipArchive.ConservedPassesInventory` | tools/audited_source_archive_evidence.py:430-448 | whatever reading returns passes the inventory check |
| `PosixPath.ChecksAccept` | tools/audited_source_archive.py:106-118 | for every string: it is relative, equal to its own `as_posix` and without empty, `.` or `..` parts if and only if it is `.` or no piece between slashes is empty, `.` or `..` |
| `PosixPath.SplitJoin` | tools/audited_source_archive.py:106-118 | joining pieces without slashes and splitting again gives the pieces |
| `PosixPath.JoinSplit` | tools/audited_source_archive.py:106-118 | splitting at slashes and joining again gives the string |
| `ZipArchive.OnlyDotEscapes` | tools/audited_source_archive.py:102-124 | an accepted entry's path is free of empty and dot pieces if and only if it is not `.` |
| `ZipArchive.DotIsAccepted` | tools/audited_source_archive.py:102-124 | a file entry named `.` passes the path checks |
| `EvidenceClosure.RequireClosure` | tools/audited_source_package.py:197-251 | for every set of expected strings: accepts if and only if there is no special or unreadable entry, the expected strings are exactly the relative paths of the regular files, and every directory is a proper ancestor of one |
| `EvidenceClosure.ClosedMeans` | tools/audited_source_package.py:197-251 | evidence is closed if and only if at every path stands a file with an expected text or a listable directory that leads to a file, and every expected text is that of a file |
| `EvidenceClosure.TextComparisonDecides` | tools/audited_source_package.py:210-251 | comparing path texts, with the expected directories computed from the parts of the expected strings, decides closure |
| `EvidenceClosure.UnnormalizedRefused` | tools/audited_source_package.py:197-251 | an expected string that is not a normalized relative path is never satisfied |
| `EvidenceClosure.ListDirectory` | tools/audited_source_package.py:219-246 | listing one directory keeps the walk's invariant and shrinks the work left, or meets an entry that is not clean |
| `EvidenceClosure.ComparisonDecides` | tools/audited_source_package.py:247-251 | once every file and directory is known the two comparisons decide closure |

## Left out

- Files, snapshots, `lstat`/`fstat` change detection, git, cosign, pytest and cargo: foreign effects; their results are inputs.
- SHA-256, `canonical_dumps`, `canonical_hash` and `json.dumps`: function parameters. The one property some results need, that a SHA-256 text has the digest pattern, is a stated hypothesis.
- Decoding of JSON, YAML, XML and ZIP, wheel file names, name canonicalisation and case folding: the models start from decoded values and take the rest as functions. JSON floats are reals, so infinities are not represented.
- The `referencing` library: subresources and reference lookup are functions of the heap; the comparison of steps and nodes assumes that they stay inside the document.
- Regular-expression compilation: the outcome is a function of the pattern. `str.isdigit` is a table. Lone surrogates in patterns are not represented.
- Which exception text is raised: errors are kinds, and in the SBOM and promotion validators a single refusal.
- Freeze.FreezeMapping: the depth limit is a parameter (the constant is 64); objects with side effects on access, other than raising, are not modelled.
- WheelNames.WheelNameParses: versions are kept as written, and the names that `packaging` refuses are not refused.
- SbomBuild.Aggregate: the order of the sorted lists is left open (any order without repeats); components have the fields that validation or aggregation reads, and one token for the rest.
- SbomAggregateValid.AggregationPreservesValidity: assumes of each platform that its artifacts belong to first-party distributions (checked elsewhere, tools/release_supply_chain.py:3504-3526), that they are referenced by digest, and that it has no release document component.
- SbomRelease.Validate: only the branch with installed distributions; all three callers (tools/release_supply_chain.py:3741, 4190 and 5136) supply them.
- PromotionAccounting.Validate: the remaining single-field checks of integration and matrix runs (beyond keys, status, completeness, candidate, result and report) are one predicate each, and the canonical form and content digest, the release and candidate bindings, the source diff, the audit-evidence package, the unchanged matrix claims and the final-admission policy are one boolean each; the accounting clauses need that the expected audit claim has its `reproductions` field, which the code always sets (tools/release_supply_chain.py:1355).
- Harness.OpenCodeHarness.Read: approval validity, the first and second path resolution and the reader are inputs of each call; the `sequence` field that a payload could override in `emit` is not modelled.
- ZipArchive.CheckInventory: the captured-file records compared afterwards are not modelled; that comparison is a conjunction of equalities.
- SecurityGates.Validate: the manifest is taken as loaded; `load_manifest_bytes` is a list of single-field checks.
- The evidence-path sets of the package manifest (`_manifest_evidence_paths`), eligibility and provenance comparisons, and the other `check_*` and `generate_*` tools: they would only add easy members.
- The Rust crates, the remaining examples and the reproductions.
