# Trust-chain walker of spid-cie-oidc-django, in Dafny

This project models the trust-chain walker of the SPID/CIE OpenID Connect
Federation implementation: the `TrustChainBuilder` class and the
`trust_chain_builder` entry point of `spid_cie_oidc/entity/trust_chain.py`.
A relying party or provider uses it to decide whether a subject entity is
trusted by a trust anchor. It then computes the subject's final metadata by
applying the metadata policies found along the trust path.

The walk has four phases:

- **Anchor resolution.** The anchor is taken as given when it is already
  an entity configuration. Otherwise it is fetched and self-validated. A
  truthy `constraints.max_path_length` becomes `max_path_len`.
- **Subject resolution.** The subject is fetched and self-validated unless
  a configuration was supplied.
- **Discovery.** Builds the layered tree of trust breadth-first. Layer 0 is
  the subject. Each later layer holds the superiors that verified the
  entities of the layer before, in order. An entity whose `get_superiors`
  or `validate_by_superiors` raises contributes nothing.
- **Terminal check.** Sets `is_valid` when the anchor has verified the
  subject, and only then walks the trust path and folds `apply_policy`
  along it.

Files:

- `wrappers.dfy`: `Option` and `Result`.
- `statements.dfy` (module `Statements`): the collaborators, as far as the
  walker sees them.
  - `Payload` keeps only `metadata`, `metadata_policy` and
    `constraints.max_path_length`.
  - `Services` answers for the network, the signature checks and the
    policy merge.
  - The `EntityConfiguration` class keeps the bookkeeping the walker reads
    back: `verified_by_superiors`, `verified_superiors` and
    `verified_descendant_statements`.
- `trust_tree.dfy` (module `TrustTree`): the tree of trust as a function of
  subjects, `Tree`, with its properties.
- `metadata_policy.dfy` (module `MetadataPolicy`): the trust-path entries
  and the policy fold, `FinalMetadata`, with its properties.
- `trust_chain.dfy` (module `TrustChain`): the `TrustChainBuilder` class,
  whose methods update its fields as the source does, and
  `BuildTrustChain`.

Ghost fields on the builder record the phases started (`trace`), every
`get_superiors` call of discovery (`superiorQueries`) and the anchor and
subject fetches (`fetches`), so that the order of phases and the arguments
of those calls can be stated. The fetches `get_superiors` makes are not
logged.

Where the code departs from the walker's documented intent, the model
follows the code:

- A "cul de sac" does not end the search. The trust path is emptied and the
  `while` guard stays true for ever (lines 100-106).
- After the anchor is found through one superior, the remaining superiors
  of the layer are still searched (lines 89-106).
- The fold runs over every entry of `trust_path[1:]`, the anchor's
  statement included (lines 111-113).
- A trust path through an intermediate holds the intermediate's subject
  string (line 99). Looking up `metadata_policy` in it fails, so such a
  path never yields metadata: `MetadataPolicy.PathThroughIntermediateFails`.
- Line 120 passes `self.trust_anchor`, which may be an identifier rather
  than a configuration. That case is the error
  `NotAConfiguration(identifier)`.
Some helpers carry the proofs and have no row of their own:

- `ExtendLayerStep` is one round of the loop of `ExtendLayer`: one entity adds its contribution to the next layer.
- `RecordedUpTo` is the invariant of the loop inside `validate_by_superiors` that records the candidates whose statement verifies.
- `RecordStep` takes that loop one candidate forward and keeps `RecordedUpTo`. `RecordIfVerified` is the check and the record for that one candidate.
- `SingleCandidate` turns the result of validating against the anchor alone into the anchor being recorded or nothing changing. `ValidateBySuperior` uses it.
- `SubjectsAdded` turns a membership condition on `verified_superiors` into set equality, for no subject added or one.

## Model

| member | source | states |
|---|---|---|
| TrustChain.TrustChainBuilder.constructor | spid_cie_oidc/entity/trust_chain.py:33-73 | Keeps the arguments. No anchor configuration yet, `is_valid` false, an empty tree and trust path, `max_path_len` 0, `final_metadata` empty, nothing fetched or queried. |
| TrustChain.TrustChainBuilder.GetTrustAnchorConfiguration | spid_cie_oidc/entity/trust_chain.py:164-185 | An anchor configuration is used as it is, with no fetch. An identifier is fetched only when no anchor configuration is held yet; a failed fetch is an error. The fetched configuration is fresh, carries the fetched payload, and the call succeeds exactly when it is self-signed. `max_path_len` takes `max_path_length` only when present and non-zero, and otherwise keeps its value. |
| TrustChain.TrustChainBuilder.GetSubjectConfiguration | spid_cie_oidc/entity/trust_chain.py:187-197 | A supplied subject configuration is kept, with no fetch. Otherwise the subject is fetched; the call fails when the fetch fails, and succeeds exactly when the fetched configuration is self-signed. |
| TrustChain.TrustChainBuilder.ApplyMetadataPolicy | spid_cie_oidc/entity/trust_chain.py:75-114 | The trust path starts with the subject's configuration and only grows. `path_found` holds exactly when an anchor statement was appended by this call. Then `final_metadata` is the subject's metadata folded along the path; otherwise it is unchanged. The result is `final_metadata`. A layer the tree does not have is `MissingLayer`. When the first entity of the reached layer has a first superior, the errors of following it are passed on: `KeyError(subject)` for an anchor without the statement, `OutOfFuel` for a cul de sac or an exhausted budget, `MissingLayer` past an intermediate at the tree's end. When that layer is a single entity whose single superior is the anchor holding its statement about the subject, within `max_path_len` and fuel, the path is found, the statement is appended, and the result is `FinalMetadata` of the subject along the new path. |
| TrustChain.TrustChainBuilder.MergeTrustPath | spid_cie_oidc/entity/trust_chain.py:109-113 | The result is exactly `FinalMetadata` of the subject payload along `trust_path[1:]`, the same metadata or the same error. On success `final_metadata` holds that metadata. |
| TrustChain.TrustChainBuilder.SearchSuperiors | spid_cie_oidc/entity/trust_chain.py:90-106 | The trust path only grows and `found` holds exactly when a statement was appended. An error from following the first superior is the result. A single superior that is the anchor holding its statement about the subject appends exactly that statement. |
| TrustChain.TrustChainBuilder.FollowSuperior | spid_cie_oidc/entity/trust_chain.py:91-106 | For the anchor, `verified_descendant_statements[subject]` is appended and the search stops, or `KeyError(subject)` is raised. A search that has already exceeded `max_path_len` changes nothing. The path only grows, `found` holds exactly when an anchor statement was appended, and `final_metadata` is untouched; a search that ends without finding has exceeded `max_path_len`. A cul de sac, or a superior met with no fuel left, is `OutOfFuel`. An intermediate at the end of the tree is `MissingLayer`. The outcome of following an intermediate into the next layer is not stated. |
| TrustChain.TrustChainBuilder.ValidateLastPathToTrustAnchor | spid_cie_oidc/entity/trust_chain.py:116-130 | When the anchor is already among `ec`'s verified superiors, the existing mapping decides. Otherwise the anchor validates `ec`, and an identifier anchor or a raising validation is an error. `is_valid` becomes true exactly when the mapping is non-empty and is never reset. Only then is the policy applied; otherwise path and metadata, `ec` and the anchor are unchanged, and `ec` and the anchor are also unchanged when the anchor was already recorded. When the anchor validates `ec` here, it is stored in `verified_by_superiors` and `verified_superiors`, and its statement about `ec` is recorded with its other descendant statements untouched. For the subject alone at layer 0, accepted by the anchor, with an empty trust path, no recorded superiors, `max_path_len >= -1` and some fuel, the trust path becomes the subject and the anchor's statement, and the call succeeds exactly when `FinalMetadata` along it does, with that metadata or that error. |
| Statements.EntityConfiguration.ValidateBySuperior | spid_cie_oidc/entity/trust_chain.py:118-121 | Validation against the single anchor raises exactly when `validate_by_superiors` does. The mapping it returns is non-empty exactly when the anchor's statement about the entity verifies. The anchor is then stored by subject and added to `verified_superiors`, and holds its statement with its other descendant statements untouched. Otherwise nothing changes. |
| TrustChain.TrustChainBuilder.Discovery | spid_cie_oidc/entity/trust_chain.py:132-162 | Layer 0 is exactly `[subject_configuration]`. The tree gets `max(max_path_len, 0) + 1` layers, each the next layer of the one before; started from an empty tree it equals `Tree`. Every `get_superiors` call gets `max_authority_hints` and the anchor configuration as the only hint, and none is made when no layer is added. When `is_valid` stays false, the trust path and `final_metadata` are unchanged. For a tree of at most one layer and a subject that is not the anchor and has no recorded superiors yet, `is_valid` becomes true exactly when it already was or `SubjectAccepted` holds of the inputs. Under those conditions, with `max_path_len` of 0 or -1 (no layer to add), an empty trust path, some fuel and `SubjectAccepted`, the trust path becomes the subject and the anchor's statement. The run succeeds exactly when `FinalMetadata` along it does, with that metadata or that error. |
| TrustChain.TrustChainBuilder.BuildTree | spid_cie_oidc/entity/trust_chain.py:138-159 | Layer 0 becomes the subject alone and the tree reaches `max_path_len + 1` layers. Starting from an empty tree, the subjects of its layers are exactly `Tree(subject, max(max_path_len, 0))`. When no layer is added, the subject and anchor configurations are unchanged. When at least one round runs from a one-layer tree, the subject's `verified_superiors` and the keys of its `verified_by_superiors` gain exactly its `Contribution`. |
| TrustChain.TrustChainBuilder.GrowTree | spid_cie_oidc/entity/trust_chain.py:139-159 | Keeps the existing layers and adds layers until there are `max_path_len + 1`. Each added layer is the next layer of the one before, and every query logged is hinted with the anchor. With no layer added, the last layer's entities and the anchor are unchanged. When a single non-anchor entity is the last layer, it records exactly its `Contribution` as verified superiors; later rounds touch only the anchor and fresh configurations. |
| TrustChain.TrustChainBuilder.ExtendLayer | spid_cie_oidc/entity/trust_chain.py:140-159 | The subjects of the new layer are `NextLayer` of the subjects of the last one. It issues exactly one query per entity, in order. Every new entity is the anchor or a new configuration that carries the payload its subject publishes and has recorded no superior. For a layer of one entity, that entity's `verified_superiors` and `verified_by_superiors` keys gain exactly its `Contribution`. |
| TrustChain.TrustChainBuilder.VerifiedSuperiorsOf | spid_cie_oidc/entity/trust_chain.py:145-157 | Logs one `get_superiors` query, then appends to `sup_ecs` exactly the entity's `Contribution`: its verified superiors, or nothing when either call raises. Each appended superior is a hint or a new configuration that carries the payload its subject publishes and has recorded no superior. The entity's `verified_superiors` and `verified_by_superiors` keys gain exactly that contribution. Each appended superior holds its statement about the entity in `verified_descendant_statements`. A hint keeps its other descendant statements, and a hint whose statement does not verify is not changed. |
| TrustChain.TrustChainBuilder.Start | spid_cie_oidc/entity/trust_chain.py:199-207 | Runs anchor resolution, subject resolution and discovery in that order, stopping at the first failure. Any error leaves `is_valid` false. On success both configurations are resolved, and from an empty tree the tree equals `Tree`. A run that returns without error and ends not valid leaves the trust path and metadata unchanged. For a run that returns without error, with no subject configuration supplied and an empty tree, `is_valid` is exactly `SubjectAccepted` of the inputs (or its earlier value). From an empty tree with `max_path_len` of 0 or less, no superior is queried. Take a run with no subject configuration supplied, an empty tree and trust path, some fuel, an anchor configuration, a subject that is fetched and self-signed, `max_path_len` of 0 or -1, and an anchor that accepts the subject (`SubjectAccepted`). Its trust path is the subject and the anchor's statement. The run succeeds, valid, exactly when `FinalMetadata` along that path does, with that metadata or that error. |
| TrustChain.TrustChainBuilder.ResolveConfigurations | spid_cie_oidc/entity/trust_chain.py:199-202 | Resolves the anchor, then the subject only if that succeeded. On success both are resolved and `max_path_len` follows the anchor's constraint; an anchor given as a configuration always resolves. A subject that is fetched and self-signed resolves with the fetched payload. |
| TrustChain.BuildTrustChain | spid_cie_oidc/entity/trust_chain.py:210-241 | A fresh builder with the default cap of 10 authority hints and the default metadata type is started. An error from `start` is passed on with the chain not valid. `max_path_len` is the anchor's `max_path_length`, or 0. The result is the builder exactly when `SubjectAccepted` holds: the anchor is a verified superior of the subject and `max_path_len >= 1`, or the terminal check validates the subject against an anchor configuration. `NotValid` comes with an empty trust path and metadata. Its tree is `Tree(subject, 10, [anchor], max(max_path_len, 0))`, and with `max_path_len <= 0` no superior is queried, whatever the outcome. For an anchor configuration whose `max_path_length` is absent, 0 or -1, and a subject that is fetched, self-signed and verified by the anchor, the result is a valid builder exactly when `FinalMetadata` along the subject and the anchor's statement succeeds; otherwise it is that error. The valid builder's trust path is those two entries, and its metadata is that fold: `apply_policy` of the subject's metadata with the statement's policy when both carry the metadata type. |
| TrustTree.Tree | spid_cie_oidc/entity/trust_chain.py:138-159 | `depth + 1` layers; layer 0 is the subject alone, and each further layer is `NextLayer` of the one before. |
| TrustTree.NextLayerConcat | spid_cie_oidc/entity/trust_chain.py:143-159 | The next layer of `a + b` is the next layer of `a` followed by that of `b`: entities contribute independently and in order. |
| TrustTree.FailingEntityContributesNothing | spid_cie_oidc/entity/trust_chain.py:144-157 | An entity whose `get_superiors` or `validate_by_superiors` raises adds nothing. Its siblings contribute as if it were absent. |
| TrustTree.NextLayerMembers | spid_cie_oidc/entity/trust_chain.py:144-153 | A subject is in the next layer if and only if it is a verified superior of some entity of the layer. |
| TrustTree.TreeEntitiesChainToSubject | spid_cie_oidc/entity/trust_chain.py:138-159 | Every entity of layer `k` is reached from the subject by a chain of `k` verified superiors. |
| TrustTree.TreePrefix | spid_cie_oidc/entity/trust_chain.py:139-159 | A deeper tree only adds layers; the first layers do not depend on the depth. |
| TrustTree.TreeUnique | spid_cie_oidc/entity/trust_chain.py:138-159 | Any layering rooted at the subject whose layers each follow from the one before is the tree. |
| MetadataPolicy.MergeAppend | spid_cie_oidc/entity/trust_chain.py:111-113 | Merging along a path with one more entry merges that entry onto the result for the shorter path (a left fold). |
| MetadataPolicy.MergePrefixFails | spid_cie_oidc/entity/trust_chain.py:111-113 | A merge that fails on a prefix of the path fails on the whole path, with the same error. |
| MetadataPolicy.MergeIsFoldOfPolicies | spid_cie_oidc/entity/trust_chain.py:109-113 | When every entry is a statement with a policy for the metadata type, the merge is the left fold of `apply_policy` over those policies, in path order. |
| MetadataPolicy.FoldPoliciesConcat | spid_cie_oidc/entity/trust_chain.py:109-113 | Folding `a + b` folds `b` onto the result of folding `a`, and stops at the first failure. |
| MetadataPolicy.MergeFailsOnNonStatement | spid_cie_oidc/entity/trust_chain.py:99-112 | A path holding any entry that is not a statement payload, such as an intermediate's subject, makes the merge fail. |
| MetadataPolicy.PathThroughIntermediateFails | spid_cie_oidc/entity/trust_chain.py:98-113 | Whatever metadata the subject declares, the final metadata of a path through an intermediate is an error. |
| MetadataPolicy.DirectPathMetadata | spid_cie_oidc/entity/trust_chain.py:109-113 | For the path made of the subject and the anchor's statement, the final metadata is `apply_policy` of the subject's metadata with that statement's policy. |
| Statements.EntityConfiguration.GetSuperiors | spid_cie_oidc/entity/trust_chain.py:146-149 | Fails exactly when the lookup of superiors fails. Otherwise returns one configuration per resolved superior, in order and without repeated subjects. Each is a supplied hint or a new configuration. A new configuration carries the payload its subject publishes, and its `verified_by_superiors`, `verified_superiors` and `verified_descendant_statements` are empty. |
| Statements.EntityConfiguration.ValidateBySuperiors | spid_cie_oidc/entity/trust_chain.py:150-152 | Raises exactly when validation raises for the entity and its candidates, and then changes nothing. Otherwise returns, in candidate order, exactly the candidates whose statement about it verifies. `verified_by_superiors` becomes the old mapping with each of them stored by subject, so old keys stay. `verified_superiors` gains their subjects. Each holds its statement about the entity in `verified_descendant_statements`. A candidate's other descendant statements are untouched, and a candidate whose statement does not verify is not changed at all. |
| Statements.ResolveCandidates | spid_cie_oidc/entity/trust_chain.py:146-149 | A subject is resolved if and only if it is a candidate not already taken that is a supplied hint or whose configuration can be fetched. No subject appears twice. |
| Statements.VerifiedSubs | spid_cie_oidc/entity/trust_chain.py:150-153 | A subject is kept if and only if it is a candidate whose statement about the entity verifies. |
| Statements.Put | spid_cie_oidc/entity/trust_chain.py:90 | Storing a superior in the ordered mapping `verified_by_superiors`, whose values line 90 walks in insertion order. This is the store inside `validate_by_superiors`. The keys keep their order, and the new subject is added at the end only when absent. |
| Statements.PutThenFind | spid_cie_oidc/entity/trust_chain.py:90 | After storing `e`, looking its subject up in the mapping finds `e`. |
| Statements.PutKeepsOthers | spid_cie_oidc/entity/trust_chain.py:90 | Storing `e` leaves every entry under another subject at its position. |
| Statements.PutNewAppends | spid_cie_oidc/entity/trust_chain.py:90 | Storing `e` under a subject not yet present appends it at the end. |
| Statements.PutAll | spid_cie_oidc/entity/trust_chain.py:90 | Storing several superiors in turn keeps the old keys, in order, as a prefix; the keys afterwards are exactly the old ones and the new subjects. |
| TrustChain.TrustChainBuilder.AcceptedAfterTree | spid_cie_oidc/entity/trust_chain.py:117-125 | Once the tree is built from a subject with no recorded superiors, the terminal check accepts the subject exactly when `SubjectAccepted` holds of the inputs. |

## Left out

- Network fetches, `httpc_params`, Django settings and logging are not modelled. A fetch is the `Services.entityConfiguration` answer, which may fail.
- JWS signature and expiry checks are not modelled. They are the `selfSigned`, `subordinateStatement` and `validationRaises` answers of `Services`.
- Whether `validate_by_superiors` raises is a function of the entity's subject and its candidates' subjects only. A raise caused by the candidates' payloads or keys is not told apart from one caused by their subjects.
- Statements.EntityConfiguration.GetSuperiors takes the authority hints from `Services.authorityHints`, a function of the entity's subject. The source reads the `authority_hints` claim of the configuration's own payload. So a supplied subject configuration, or an anchor configuration whose payload differs from what its subject publishes, is walked with the published hints.
- A fetched configuration's `sub` is the identifier it was fetched for. The source reads `sub` from the fetched JWT, so a configuration published under another subject is not modelled.
- The two fetches differ in the source: line 174 passes the whole fetch result to the configuration, line 192 its first element. Both are modelled as one fetch that yields a payload or fails. An empty fetch result, which fails at line 192, and a result that line 174 cannot decode are the same failure here.
- `apply_policy` is a parameter of `Services`. Its directive semantics live in `spid_cie_oidc/entity/policy.py`, which is not part of this model.
- `spid_cie_oidc/entity/statements.py` is not part of this model. `GetSuperiors` and `ValidateBySuperiors` are minimal implementations driven by `Services`.
  - `validate_by_superiors` is taken to return only the superiors it verified in that call.
  - When it raises, it does so before recording anything.
- The trust-mark check, `required_trust_marks`, `statements_collection` and the pre-fetch caches are not modelled. They are a TODO or unused in the source.
- TrustChain.TrustChainBuilder.ApplyMetadataPolicy is given explicit fuel. The "cul de sac" branch never terminates in the source, so running out of fuel is reported as `OutOfFuel` and termination is not claimed.
- TrustChain.TrustChainBuilder.ApplyMetadataPolicy states nothing about the trust path after an error.
- TrustChain.TrustChainBuilder.MergeTrustPath does not state the partly merged `final_metadata` the source leaves when a lookup or `apply_policy` raises mid-fold.
- TrustChain.TrustChainBuilder.ValidateLastPathToTrustAnchor states the trust path and metadata after the policy is applied only when it starts from an empty trust path, which is how discovery calls it. In general it states them only on success; the error is stated for a one-hop path.
- TrustChain.TrustChainBuilder.ApplyMetadataPolicy names its result only for the first superior of the first entity of the reached layer, and for a single path of one hop. Which later superior decides the outcome of a wider search is not stated.
- TrustChain.TrustChainBuilder.SearchSuperiors states the outcome of following the first superior only, and the one-hop case of a single superior. Which later superiors are followed, and what they add to the path, is not stated.
- TrustChain.TrustChainBuilder.FollowSuperior does not state the outcome of recursing into the next layer through an intermediate, nor the errors raised there. It also does not state that the intermediate's own superiors are searched; only the path growth and the `max_path_len` bound are stated.
- MetadataPolicy.PolicyOf reports a statement without a `metadata_policy` claim as `KeyError` of the metadata type. The source raises `KeyError('metadata_policy')` at line 112. Both are the same failure of the fold; only the key named in the error differs.
- TrustChain.BuildTrustChain characterizes the validity of runs that return without error only. For which inputs `start` raises is stated phase by phase (a failed fetch, a bad self-signature, an identifier anchor at the terminal check), but not for errors raised while the policies are applied. The outcome, trust path and metadata are stated for a one-hop run (an anchor configuration with `max_path_length` absent, 0 or -1). A multi-hop run, where discovery adds layers, is shown valid or not by `SubjectAccepted`, but its trust path and metadata are not stated.
- TrustChain.TrustChainBuilder.Start and TrustChain.TrustChainBuilder.Discovery characterize `is_valid` only for a run that starts from an empty tree with a subject that has no recorded superiors. This is how `trust_chain_builder` runs them. A tree left by an earlier run is not covered.
- TrustChain.TrustChainBuilder.BuildTree states the bookkeeping of the configurations it touches only for the subject's first round and for a run that adds no layer. What the anchor's `verified_descendant_statements` and the records of later layers hold after several rounds is not stated.
- TrustChain.TrustChainBuilder.ExtendLayer and TrustChain.TrustChainBuilder.GrowTree state the superiors' bookkeeping only for a layer of a single entity, the subject's layer. The statements recorded in the superiors over several rounds are not stated.
- TrustChain.TrustChainBuilder.Discovery and the phase methods require the configurations their phase resolved before them, which is the order `start` runs them in. Calling a phase out of order is not modelled.
- The `int()` conversion of `max_path_length` is not modelled. The claim is taken to be an integer already.
- `tree_of_trust` is a sequence of layers instead of an ordered dictionary. Its keys are always 0 to n, so layer `k` is at index `k`.
