/** The trust-chain walker of an OpenID Connect Federation relying party or
    provider: resolve the trust anchor and the subject, build the tree of
    trust breadth-first up to the anchor's `max_path_length`, check that the
    anchor verified the subject, and apply the metadata policies along the
    trust path. */
module TrustChain {
  import opened Wrappers
  import opened Statements
  import opened MetadataPolicy
  import opened TrustTree

  /** The metadata type resolved when the caller names none. */
  const DefaultMetadataType: string := "openid_provider"

  /** How many authority hints are followed on each hop by default. */
  const DefaultMaxAuthorityHints: int := 10

  /** The trust anchor as the caller gives it: its identifier, or its
      configuration already fetched. */
  datatype Anchor = AnchorId(id: string) | AnchorConfig(config: EntityConfiguration)

  /** The configuration an anchor carries, if any. */
  function AnchorObjects(anchor: Anchor): set<object>
  {
    if anchor.AnchorConfig? then {anchor.config} else {}
  }

  /** The phases of a run, in the order they start. */
  datatype Step = ResolveAnchor | ResolveSubject | Discover

  /** The arguments of one `get_superiors` call made by discovery. */
  datatype Query = Query(sub: string, maxAuthorityHints: int, hints: seq<EntityConfiguration>)

  /** What `trust_chain_builder` returns: `False`, or the builder. */
  datatype ChainOutcome = NotValid | Valid(builder: TrustChainBuilder)

  function Max(a: int, b: int): int
  {
    if a >= b then a else b
  }

  /** The subjects of every layer of a tree of trust. */
  function LayerSubs(tree: seq<seq<EntityConfiguration>>): (r: seq<seq<string>>)
    ensures |r| == |tree|
    ensures forall k :: 0 <= k < |tree| ==> r[k] == Subs(tree[k])
  {
    seq(|tree|, k requires 0 <= k < |tree| => Subs(tree[k]))
  }

  /** The configurations of the last layer of a tree of trust, the one
      discovery grows from. */
  ghost function TopEntities(tree: seq<seq<EntityConfiguration>>): set<object>
  {
    if tree == [] then {} else var top := tree[|tree| - 1]; set e | e in top
  }

  /** Some entry of `path` from index `from` on is a statement payload, that
      is, the anchor's statement about the subject was appended there. */
  predicate StatementFrom(path: seq<PathEntry>, from: nat)
  {
    exists i :: from <= i < |path| && path[i].Statement?
  }

  /** The trust path leads from the subject to a statement of the anchor. */
  predicate ReachesAnchor(path: seq<PathEntry>)
  {
    StatementFrom(path, 1)
  }

  /** Statements after `from` in an extended path are those of the path
      before the extension and those of the extension. */
  lemma StatementFromSplit(p0: seq<PathEntry>, t: seq<PathEntry>, u: seq<PathEntry>)
    requires p0 <= t <= u
    ensures StatementFrom(u, |p0|) <==> StatementFrom(t, |p0|) || StatementFrom(u, |t|)
  {
    if StatementFrom(u, |p0|) {
      var i :| |p0| <= i < |u| && u[i].Statement?;
      if i < |t| {
        assert t[i] == u[i];
      }
    }
    if StatementFrom(t, |p0|) {
      var i :| |p0| <= i < |t| && t[i].Statement?;
      assert u[i] == t[i];
    }
  }

  /** One more entity of a layer contributes its share to the next layer. */
  lemma NextLayerStep(services: Services, layer: seq<EntityConfiguration>, i: nat,
                      maxAuthorityHints: int, hintSubs: seq<string>)
    requires i < |layer|
    ensures NextLayer(services, Subs(layer[..i + 1]), maxAuthorityHints, hintSubs)
            == NextLayer(services, Subs(layer[..i]), maxAuthorityHints, hintSubs)
               + Contribution(services, layer[i].sub, maxAuthorityHints, hintSubs)
  {
    var s := Subs(layer[..i + 1]);
    assert s[..|s| - 1] == Subs(layer[..i]);
    assert s[|s| - 1] == layer[i].sub;
  }

  lemma SubsConcat(a: seq<EntityConfiguration>, b: seq<EntityConfiguration>)
    ensures Subs(a + b) == Subs(a) + Subs(b)
  {
  }

  /** `ec`'s record of its superiors after a discovery round validated it:
      `verified_superiors` and the keys of `verified_by_superiors` hold what
      they held before (`superiors0` and `keys0`) and the subjects `added`. */
  ghost predicate SuperiorsRecorded(ec: EntityConfiguration, superiors0: set<string>, keys0: seq<string>,
                                    added: seq<string>)
    reads ec`verifiedSuperiors, ec`verifiedBySuperiors
  {
    && (forall s :: s in ec.verifiedSuperiors <==> s in superiors0 || s in added)
    && (forall s :: s in Subs(ec.verifiedBySuperiors) <==> s in keys0 || s in added)
  }

  /** Whether a run that starts with no tree and a freshly fetched subject
      ends with the anchor having verified the subject, in terms of the
      inputs: when discovery runs at least one round, the anchor is a
      verified superior of the subject; failing that, the terminal check
      validates the subject against an anchor given as a configuration. */
  ghost predicate SubjectAccepted(services: Services, trustAnchor: Anchor, anchorSub: string, subject: string,
                                  maxAuthorityHints: int, maxPathLen: int)
  {
    || (maxPathLen >= 1 && VerifiedSuperior(services, subject, anchorSub, maxAuthorityHints, [anchorSub]))
    || (&& trustAnchor.AnchorConfig?
        && !services.validationRaises(subject, [trustAnchor.config.sub])
        && services.subordinateStatement(trustAnchor.config.sub, subject).Some?)
  }

  /** The subject's published entity configuration can be fetched and
      its signature verifies with its own keys. */
  ghost predicate SubjectFetchable(services: Services, subject: string)
  {
    && services.entityConfiguration(subject).Some?
    && services.selfSigned(subject, services.entityConfiguration(subject).value)
  }

  class TrustChainBuilder {
    const subject: string
    const trustAnchor: Anchor
    const services: Services
    const maxAuthorityHints: int
    const requiredTrustMarks: seq<string>
    const metadataType: string

    var subjectConfiguration: EntityConfiguration?
    var trustAnchorConfiguration: EntityConfiguration?
    var isValid: bool
    /** `tree_of_trust`: its keys are always 0 .. n, so layer `k` is at index `k`. */
    var treeOfTrust: seq<seq<EntityConfiguration>>
    var trustPath: seq<PathEntry>
    var maxPathLen: int
    var finalMetadata: Metadata

    /** The phases started so far. */
    ghost var trace: seq<Step>
    /** The `get_superiors` calls made so far. */
    ghost var superiorQueries: seq<Query>
    /** The entity configurations fetched so far, by subject. */
    ghost var fetches: seq<string>

    constructor (subject: string, trustAnchor: Anchor, services: Services,
                 maxAuthorityHints: int := DefaultMaxAuthorityHints,
                 subjectConfiguration: EntityConfiguration? := null, requiredTrustMarks: seq<string> := [],
                 metadataType: string := DefaultMetadataType)
      ensures this.subject == subject && this.trustAnchor == trustAnchor
      ensures this.services == services && this.maxAuthorityHints == maxAuthorityHints
      ensures this.subjectConfiguration == subjectConfiguration
      ensures this.requiredTrustMarks == requiredTrustMarks && this.metadataType == metadataType
      ensures trustAnchorConfiguration == null && !isValid
      ensures treeOfTrust == [] && trustPath == [] && maxPathLen == 0 && finalMetadata == map[]
      ensures trace == [] && superiorQueries == [] && fetches == []
    {
      this.subject := subject;
      this.trustAnchor := trustAnchor;
      this.services := services;
      this.maxAuthorityHints := maxAuthorityHints;
      this.subjectConfiguration := subjectConfiguration;
      this.requiredTrustMarks := requiredTrustMarks;
      this.metadataType := metadataType;
      trustAnchorConfiguration := null;
      isValid := false;
      treeOfTrust := [];
      trustPath := [];
      maxPathLen := 0;
      finalMetadata := map[];
      trace := [];
      superiorQueries := [];
      fetches := [];
    }

    /** Both configurations are known, and an anchor given as a
        configuration is the anchor configuration. */
    predicate Resolved()
      reads this
    {
      && trustAnchorConfiguration != null
      && subjectConfiguration != null
      && (trustAnchor.AnchorConfig? ==> trustAnchor.config == trustAnchorConfiguration)
    }

    /** The configurations a run may update. */
    ghost function Participants(): set<object>
      reads this
    {
      (if subjectConfiguration != null then {subjectConfiguration} else {})
      + (if trustAnchorConfiguration != null then {trustAnchorConfiguration} else {})
      + AnchorObjects(trustAnchor)
      + TopEntities(treeOfTrust)
    }

    /** The final metadata is the subject's metadata merged along the trust
        path. */
    predicate MetadataMatchesPath()
      reads this
      requires subjectConfiguration != null
    {
      && |trustPath| >= 1
      && FinalMetadata(services.applyPolicy, subjectConfiguration.payload, metadataType, trustPath[1..])
         == Ok(finalMetadata)
    }

    /** After policy application: metadata merged along a path that reaches
        the anchor, or else `prior` kept. */
    predicate MetadataOutcome(prior: Metadata)
      reads this
      requires subjectConfiguration != null
    {
      if ReachesAnchor(trustPath) then MetadataMatchesPath() else finalMetadata == prior
    }

    /** The anchor has verified `ec`: it is among `ec`'s verified superiors
        and the mapping of superiors that verified `ec` is not empty. */
    predicate AnchorVerified(ec: EntityConfiguration)
      reads this, ec
      requires trustAnchorConfiguration != null
    {
      trustAnchorConfiguration.sub in ec.verifiedSuperiors && ec.verifiedBySuperiors != []
    }

    /** Whether the terminal check on `ec` finds a non-empty mapping, read
        in the state before the check: the mapping already held when the
        anchor is among `ec`'s verified superiors, otherwise the outcome of
        validating `ec` against the anchor. */
    predicate AnchorAccepts(ec: EntityConfiguration)
      reads this, ec
      requires trustAnchorConfiguration != null
    {
      if trustAnchorConfiguration.sub in ec.verifiedSuperiors then ec.verifiedBySuperiors != []
      else
        && trustAnchor.AnchorConfig?
        && !services.validationRaises(ec.sub, [trustAnchor.config.sub])
        && services.subordinateStatement(trustAnchor.config.sub, ec.sub).Some?
    }

    /** `get_trust_anchor_configuration`. */
    method GetTrustAnchorConfiguration() returns (r: Result<(), Error>)
      modifies this`trustAnchorConfiguration, this`maxPathLen, this`fetches, this`trace
      ensures trace == old(trace) + [ResolveAnchor]
      ensures trustAnchor.AnchorConfig? ==>
                && r.Ok? && trustAnchorConfiguration == trustAnchor.config && fetches == old(fetches)
      ensures trustAnchor.AnchorId? && old(trustAnchorConfiguration) != null ==>
                && r.Ok? && trustAnchorConfiguration == old(trustAnchorConfiguration) && fetches == old(fetches)
      ensures trustAnchor.AnchorId? && old(trustAnchorConfiguration) == null ==>
                && fetches == old(fetches) + [trustAnchor.id]
                && match services.entityConfiguration(trustAnchor.id)
                   case None => r == Err(FetchFailed(trustAnchor.id)) && trustAnchorConfiguration == null
                   case Some(p) =>
                     && fresh(trustAnchorConfiguration)
                     && trustAnchorConfiguration.sub == trustAnchor.id && trustAnchorConfiguration.payload == p
                     && trustAnchorConfiguration.verifiedBySuperiors == []
                     && trustAnchorConfiguration.verifiedSuperiors == {}
                     && (r.Ok? <==> services.selfSigned(trustAnchor.id, p))
      ensures r.Err? ==> maxPathLen == old(maxPathLen)
      ensures r.Ok? ==>
                && trustAnchorConfiguration != null
                && (trustAnchor.AnchorConfig? ==> trustAnchor.config == trustAnchorConfiguration)
                && match trustAnchorConfiguration.payload.maxPathLength
                   case Some(v) => maxPathLen == if v != 0 then v else old(maxPathLen)
                   case None => maxPathLen == old(maxPathLen)
    {
      trace := trace + [ResolveAnchor];
      match trustAnchor {
        case AnchorConfig(c) =>
          trustAnchorConfiguration := c;
        case AnchorId(id) =>
          if trustAnchorConfiguration == null {
            fetches := fetches + [id];
            match services.entityConfiguration(id) {
              case None =>
                return Err(FetchFailed(id));
              case Some(p) =>
                trustAnchorConfiguration := new EntityConfiguration(id, p);
                var v := trustAnchorConfiguration.ValidateByItself(services);
                if v.Err? {
                  return Err(v.error);
                }
            }
          }
      }
      match trustAnchorConfiguration.payload.maxPathLength {
        case Some(v) =>
          if v != 0 {
            maxPathLen := v;
          }
        case None =>
      }
      r := Ok(());
    }

    /** `get_subject_configuration`. */
    method GetSubjectConfiguration() returns (r: Result<(), Error>)
      modifies this`subjectConfiguration, this`fetches, this`trace
      ensures trace == old(trace) + [ResolveSubject]
      ensures old(subjectConfiguration) != null ==>
                && r.Ok? && subjectConfiguration == old(subjectConfiguration) && fetches == old(fetches)
      ensures old(subjectConfiguration) == null ==>
                && fetches == old(fetches) + [subject]
                && match services.entityConfiguration(subject)
                   case None => r == Err(FetchFailed(subject)) && subjectConfiguration == null
                   case Some(p) =>
                     && fresh(subjectConfiguration)
                     && subjectConfiguration.sub == subject && subjectConfiguration.payload == p
                     && subjectConfiguration.verifiedBySuperiors == []
                     && subjectConfiguration.verifiedSuperiors == {}
                     && (r.Ok? <==> services.selfSigned(subject, p))
    {
      trace := trace + [ResolveSubject];
      if subjectConfiguration == null {
        fetches := fetches + [subject];
        match services.entityConfiguration(subject) {
          case None =>
            return Err(FetchFailed(subject));
          case Some(p) =>
            subjectConfiguration := new EntityConfiguration(subject, p);
            var v := subjectConfiguration.ValidateByItself(services);
            if v.Err? {
              return Err(v.error);
            }
        }
      }
      r := Ok(());
    }

    /** `apply_metadata_policy`: looks for the anchor among the superiors
        that verified the entities of the layer the trust path has reached,
        extending the trust path as it goes, then merges the policies along
        the path. Returns the final metadata, and whether this call found
        the anchor. */
    method ApplyMetadataPolicy(fuel: nat) returns (r: Result<Metadata, Error>, pathFound: bool)
      requires Resolved()
      modifies this`trustPath, this`finalMetadata
      decreases fuel, 2
      ensures var p0 := if old(trustPath) == [] then [Config(subjectConfiguration)] else old(trustPath);
              && (r.Ok? ==> p0 <= trustPath)
              && (r.Ok? ==> (pathFound <==> StatementFrom(trustPath, |p0|)))
      ensures r.Ok? ==> r.value == finalMetadata
      ensures r.Ok? && pathFound ==> MetadataMatchesPath()
      ensures r.Ok? && !pathFound ==> finalMetadata == old(finalMetadata)
      ensures var n := if old(trustPath) == [] then 0 else |old(trustPath)| - 1;
              n >= |treeOfTrust| ==> r == Err(MissingLayer(n))
      ensures var p0 := if old(trustPath) == [] then [Config(subjectConfiguration)] else old(trustPath);
              FirstSuperiorFound(|p0| - 1) && FollowError(FirstSuperior(|p0| - 1), p0, fuel).Some? ==>
                r == Err(FollowError(FirstSuperior(|p0| - 1), p0, fuel).value)
      ensures var p0 := if old(trustPath) == [] then [Config(subjectConfiguration)] else old(trustPath);
              SingleSuperior(|p0| - 1) && AnchorReached(FirstSuperior(|p0| - 1), p0, fuel) ==>
                && pathFound
                && trustPath == p0 + [Statement(FirstSuperior(|p0| - 1).verifiedDescendantStatements[subject])]
                && r == FinalMetadata(services.applyPolicy, subjectConfiguration.payload, metadataType, trustPath[1..])
    {
      if trustPath == [] {
        trustPath := [Config(subjectConfiguration)];
      }
      ghost var p0 := trustPath;
      var n := |trustPath| - 1;
      if n >= |treeOfTrust| {
        return Err(MissingLayer(n)), false;
      }
      var lastPath := treeOfTrust[n];
      pathFound := false;
      var f: nat := fuel;
      for i := 0 to |lastPath|
        invariant f <= fuel
        invariant p0 <= trustPath
        invariant finalMetadata == old(finalMetadata)
        invariant pathFound <==> StatementFrom(trustPath, |p0|)
        invariant i == 0 ==> trustPath == p0 && f == fuel
        invariant SingleSuperior(n) && i == 1 && AnchorReached(FirstSuperior(n), p0, fuel) ==>
                    pathFound && trustPath == p0 + [Statement(FirstSuperior(n).verifiedDescendantStatements[subject])]
        invariant FirstSuperiorFound(n) && FollowError(FirstSuperior(n), p0, fuel).Some? ==> i == 0
      {
        ghost var t := trustPath;
        var searched, found, left := SearchSuperiors(lastPath[i].verifiedBySuperiors, f);
        if searched.Err? {
          return Err(searched.error), false;
        }
        StatementFromSplit(p0, t, trustPath);
        f := left;
        pathFound := pathFound || found;
      }
      if pathFound {
        var merged := MergeTrustPath();
        if merged.Err? {
          return Err(merged.error), pathFound;
        }
      }
      r := Ok(finalMetadata);
    }

    /** The loop over `ec.verified_by_superiors.values()` of
        `apply_metadata_policy`: follows each superior in turn. */
    method SearchSuperiors(superiors: seq<EntityConfiguration>, fuel: nat)
      returns (r: Result<(), Error>, found: bool, fuelLeft: nat)
      requires Resolved() && trustPath != []
      modifies this`trustPath, this`finalMetadata
      decreases fuel, 1
      ensures fuelLeft <= fuel
      ensures r.Ok? ==> old(trustPath) <= trustPath
      ensures r.Ok? ==> (found <==> StatementFrom(trustPath, |old(trustPath)|))
      ensures r.Ok? ==> finalMetadata == old(finalMetadata)
      ensures superiors != [] && FollowError(superiors[0], old(trustPath), fuel).Some? ==>
                r == Err(FollowError(superiors[0], old(trustPath), fuel).value)
      ensures |superiors| == 1 && AnchorReached(superiors[0], old(trustPath), fuel) ==>
                && r.Ok? && found
                && trustPath == old(trustPath) + [Statement(superiors[0].verifiedDescendantStatements[subject])]
    {
      found := false;
      var f: nat := fuel;
      for j := 0 to |superiors|
        invariant f <= fuel
        invariant old(trustPath) <= trustPath
        invariant finalMetadata == old(finalMetadata)
        invariant found <==> StatementFrom(trustPath, |old(trustPath)|)
        invariant j == 0 ==> trustPath == old(trustPath) && f == fuel
        invariant |superiors| == 1 && j == 1 && AnchorReached(superiors[0], old(trustPath), fuel) ==>
                    found && trustPath == old(trustPath) + [Statement(superiors[0].verifiedDescendantStatements[subject])]
        invariant superiors != [] && FollowError(superiors[0], old(trustPath), fuel).Some? ==> j == 0
      {
        ghost var t := trustPath;
        var followed, foundHere, left := FollowSuperior(superiors[j], f);
        if followed.Err? {
          return Err(followed.error), false, f;
        }
        StatementFromSplit(old(trustPath), t, trustPath);
        f := left;
        found := found || foundHere;
      }
      r, fuelLeft := Ok(()), f;
    }

    /** Layer `n` of the tree has an entity, and its first entity has a
        superior that verified it: the first superior the search follows. */
    predicate FirstSuperiorFound(n: int)
      reads this`treeOfTrust
      reads if 0 <= n < |treeOfTrust| && treeOfTrust[n] != [] then {treeOfTrust[n][0]} else {}
    {
      && 0 <= n < |treeOfTrust|
      && treeOfTrust[n] != []
      && treeOfTrust[n][0].verifiedBySuperiors != []
    }

    /** The first superior of the first entity of layer `n`. */
    function FirstSuperior(n: int): EntityConfiguration
      reads this`treeOfTrust
      reads if 0 <= n < |treeOfTrust| && treeOfTrust[n] != [] then {treeOfTrust[n][0]} else {}
      requires FirstSuperiorFound(n)
    {
      treeOfTrust[n][0].verifiedBySuperiors[0]
    }

    /** Layer `n` of the tree is a single entity verified by a single
        superior. */
    predicate SingleSuperior(n: int)
      reads this`treeOfTrust
      reads if 0 <= n < |treeOfTrust| && treeOfTrust[n] != [] then {treeOfTrust[n][0]} else {}
    {
      && FirstSuperiorFound(n)
      && |treeOfTrust[n]| == 1
      && |treeOfTrust[n][0].verifiedBySuperiors| == 1
    }

    /** What the `while` loop for superior `sup` raises at its first round
        when the trust path is `path`, if anything: no fuel is left, the
        anchor holds no statement about the subject (line 95), `sup` is a
        "cul de sac", which never lets the loop end (lines 100-106), or `sup`
        is an intermediate and the tree has no layer past it (line 86 of the
        recursive call). */
    ghost function FollowError(sup: EntityConfiguration, path: seq<PathEntry>, fuel: nat): Option<Error>
      reads this`maxPathLen, this`treeOfTrust, this`trustAnchorConfiguration
      reads sup`verifiedBySuperiors, sup`verifiedDescendantStatements
      requires trustAnchorConfiguration != null
    {
      if |path| - 2 > maxPathLen then None
      else if fuel == 0 then Some(OutOfFuel)
      else if sup.sub == trustAnchorConfiguration.sub then
        if subject in sup.verifiedDescendantStatements then None else Some(KeyError(subject))
      else if sup.verifiedBySuperiors == [] then Some(OutOfFuel)
      else if |path| >= |treeOfTrust| then Some(MissingLayer(|path|))
      else None
    }

    /** The `while` loop for superior `sup` finds the anchor at once when
        the trust path is `path`: the loop runs, `sup` is the anchor and
        holds a statement about the subject. */
    ghost predicate AnchorReached(sup: EntityConfiguration, path: seq<PathEntry>, fuel: nat)
      reads this`maxPathLen, this`trustAnchorConfiguration, sup`verifiedDescendantStatements
      requires trustAnchorConfiguration != null
    {
      && |path| - 2 <= maxPathLen && fuel > 0
      && sup.sub == trustAnchorConfiguration.sub && subject in sup.verifiedDescendantStatements
    }

    /** The end of `apply_metadata_policy` once a path is found: the
        subject's metadata of the requested type, with the policy of every
        trust-path entry after the subject applied in turn. */
    method MergeTrustPath() returns (r: Result<Metadata, Error>)
      requires subjectConfiguration != null && |trustPath| >= 1
      modifies this`finalMetadata
      ensures r.Ok? ==> r.value == finalMetadata && MetadataMatchesPath()
      ensures r == FinalMetadata(services.applyPolicy, subjectConfiguration.payload, metadataType, trustPath[1..])
    {
      var payload := subjectConfiguration.payload;
      if metadataType !in payload.metadata {
        return Err(KeyError(metadataType));
      }
      var base := payload.metadata[metadataType];
      finalMetadata := base;
      var entries := trustPath[1..];
      for k := 0 to |entries|
        invariant MergeAlongPath(services.applyPolicy, base, metadataType, entries[..k]) == Ok(finalMetadata)
      {
        MergeAppend(services.applyPolicy, base, metadataType, entries[..k], entries[k]);
        assert entries[..k + 1] == entries[..k] + [entries[k]];
        var policy := PolicyOf(entries[k], metadataType);
        if policy.Err? {
          MergePrefixFails(services.applyPolicy, base, metadataType, entries, k + 1);
          return Err(policy.error);
        }
        var merged := services.applyPolicy(finalMetadata, policy.value);
        if merged.Err? {
          MergePrefixFails(services.applyPolicy, base, metadataType, entries, k + 1);
          return Err(merged.error);
        }
        finalMetadata := merged.value;
      }
      assert entries[..|entries|] == entries;
      r := Ok(finalMetadata);
    }

    /** The `while` loop of `apply_metadata_policy` for one superior `sup`:
        the anchor's statement about the subject ends the search; a superior
        that has superiors of its own is appended and the search recurses one
        layer up; a "cul de sac" empties the trust path, after which the loop
        never ends. Returns whether the anchor was found, and the fuel left. */
    method FollowSuperior(sup: EntityConfiguration, fuel: nat)
      returns (r: Result<(), Error>, found: bool, fuelLeft: nat)
      requires Resolved() && trustPath != []
      modifies this`trustPath, this`finalMetadata
      decreases fuel, 0
      ensures fuelLeft <= fuel
      ensures r.Ok? ==> old(trustPath) <= trustPath
      ensures r.Ok? ==> (found <==> StatementFrom(trustPath, |old(trustPath)|))
      ensures r.Ok? ==> finalMetadata == old(finalMetadata)
      ensures |old(trustPath)| - 2 > maxPathLen ==> r.Ok? && !found && trustPath == old(trustPath)
      ensures r.Ok? && !found ==> |trustPath| - 2 > maxPathLen
      ensures FollowError(sup, old(trustPath), fuel).Some? ==> r == Err(FollowError(sup, old(trustPath), fuel).value)
      ensures AnchorReached(sup, old(trustPath), fuel) ==>
                && r.Ok? && found
                && trustPath == old(trustPath) + [Statement(sup.verifiedDescendantStatements[subject])]
      ensures && |old(trustPath)| - 2 <= maxPathLen && fuel > 0 && sup.sub != trustAnchorConfiguration.sub
              && sup.verifiedBySuperiors != [] && r.Ok? ==>
                !found && old(trustPath) + [SubjectId(sup.sub)] <= trustPath
    {
      var f: nat := fuel;
      while |trustPath| - 2 <= maxPathLen
        invariant f <= fuel
        invariant f == fuel ==> trustPath == old(trustPath)
        invariant && |old(trustPath)| - 2 <= maxPathLen && sup.sub != trustAnchorConfiguration.sub
                  && sup.verifiedBySuperiors == [] ==>
                    |trustPath| - 2 <= maxPathLen
        invariant && sup.sub != trustAnchorConfiguration.sub && sup.verifiedBySuperiors != [] && f < fuel ==>
                    old(trustPath) + [SubjectId(sup.sub)] <= trustPath
        invariant && |old(trustPath)| - 2 <= maxPathLen && sup.sub != trustAnchorConfiguration.sub
                  && sup.verifiedBySuperiors != [] && |old(trustPath)| >= |treeOfTrust| ==>
                    f == fuel
        invariant finalMetadata == old(finalMetadata)
        invariant sup.sub == trustAnchorConfiguration.sub ==> trustPath == old(trustPath) && f == fuel
        invariant |old(trustPath)| - 2 > maxPathLen ==> trustPath == old(trustPath)
        invariant trustPath != [] ==> old(trustPath) <= trustPath && !StatementFrom(trustPath, |old(trustPath)|)
        invariant trustPath == [] ==>
                    && -2 <= maxPathLen
                    && sup.sub != trustAnchorConfiguration.sub
                    && sup.verifiedBySuperiors == []
        decreases f
      {
        if f == 0 {
          return Err(OutOfFuel), false, 0;
        }
        f := f - 1;
        if sup.sub == trustAnchorConfiguration.sub {
          if subject !in sup.verifiedDescendantStatements {
            return Err(KeyError(subject)), false, f;
          }
          trustPath := trustPath + [Statement(sup.verifiedDescendantStatements[subject])];
          assert trustPath[|trustPath| - 1].Statement?;
          return Ok(()), true, f;
        }
        if sup.verifiedBySuperiors != [] {
          ghost var t := trustPath;
          trustPath := trustPath + [SubjectId(sup.sub)];
          ghost var u := trustPath;
          var inner, innerFound := ApplyMetadataPolicy(f);
          if inner.Err? {
            return Err(inner.error), false, f;
          }
          PathThroughIntermediateFails(services.applyPolicy, subjectConfiguration.payload, metadataType,
                                       trustPath[1..], |t| - 1);
          assert !innerFound;
          StatementFromSplit(old(trustPath), u, trustPath);
          assert !StatementFrom(u, |old(trustPath)|) by {
            StatementFromSplit(old(trustPath), t, u);
          }
        } else {
          trustPath := [];
        }
      }
      assert trustPath != [];
      r, found, fuelLeft := Ok(()), false, f;
    }

    /** `validate_last_path_to_trust_anchor`: the chain is valid when the
        anchor has verified `ec`, and only then is the metadata policy
        applied. */
    method ValidateLastPathToTrustAnchor(ec: EntityConfiguration, fuel: nat) returns (r: Result<(), Error>)
      requires Resolved()
      modifies this`isValid, this`trustPath, this`finalMetadata
      modifies ec`verifiedBySuperiors, ec`verifiedSuperiors, trustAnchorConfiguration`verifiedDescendantStatements
      ensures isValid == (old(isValid) || old(AnchorAccepts(ec)))
      ensures old(trustAnchorConfiguration.sub in ec.verifiedSuperiors) || !old(AnchorAccepts(ec)) ==>
                unchanged(ec) && unchanged(trustAnchorConfiguration)
      ensures old(trustAnchorConfiguration.sub !in ec.verifiedSuperiors) && old(AnchorAccepts(ec)) ==>
                && ec.verifiedBySuperiors == PutAll(old(ec.verifiedBySuperiors), [trustAnchorConfiguration])
                && ec.verifiedSuperiors == old(ec.verifiedSuperiors) + {trustAnchorConfiguration.sub}
                && Recorded(services, trustAnchorConfiguration, ec.sub)
                && KeepsOthers(old(trustAnchorConfiguration.verifiedDescendantStatements),
                               trustAnchorConfiguration.verifiedDescendantStatements, ec.sub)
      ensures && old(trustAnchorConfiguration.sub !in ec.verifiedSuperiors) && old(AnchorAccepts(ec))
              && ec == subjectConfiguration && ec.sub == subject && old(ec.verifiedBySuperiors) == []
              && old(trustPath) == [] && treeOfTrust != [] && treeOfTrust[0] == [ec] && -1 <= maxPathLen && fuel > 0 ==>
                var statement := services.subordinateStatement(trustAnchorConfiguration.sub, subject).value;
                var m := FinalMetadata(services.applyPolicy, ec.payload, metadataType, [Statement(statement)]);
                && trustPath == [Config(ec), Statement(statement)]
                && (r.Ok? <==> m.Ok?) && (r.Err? ==> r.error == m.error) && (r.Ok? ==> finalMetadata == m.value)
      ensures AnchorVerified(ec) <==> old(AnchorAccepts(ec))
      ensures !old(AnchorAccepts(ec)) ==> trustPath == old(trustPath) && finalMetadata == old(finalMetadata)
      ensures !old(AnchorAccepts(ec)) ==>
                (r.Err? <==> && old(trustAnchorConfiguration.sub !in ec.verifiedSuperiors)
                             && (trustAnchor.AnchorId? || services.validationRaises(ec.sub, [trustAnchor.config.sub])))
      ensures r.Ok? && old(trustPath) == [] && trustPath != [] ==> trustPath[0] == Config(subjectConfiguration)
      ensures r.Ok? && old(trustPath) == [] ==> MetadataOutcome(old(finalMetadata))
    {
      var mappingNonEmpty: bool;
      if trustAnchorConfiguration.sub !in ec.verifiedSuperiors {
        match trustAnchor {
          case AnchorId(id) =>
            return Err(NotAConfiguration(id));
          case AnchorConfig(c) =>
            var validated := ec.ValidateBySuperior(services, c);
            if validated.Err? {
              return Err(validated.error);
            }
            mappingNonEmpty := validated.value;
        }
      } else {
        mappingNonEmpty := ec.verifiedBySuperiors != [];
      }
      if mappingNonEmpty {
        isValid := true;
        var metadata, _ := ApplyMetadataPolicy(fuel);
        if metadata.Err? {
          return Err(metadata.error);
        }
      }
      r := Ok(());
    }

    /** One round of `discovery`: every entity of `layer` asks for its
        superiors, with the anchor configuration as the only hint, and has
        its statements validated by them; the superiors that verified it
        are appended to the next layer. An entity whose `get_superiors` or
        `validate_by_superiors` raises is skipped. */
    method ExtendLayer(layer: seq<EntityConfiguration>) returns (next: seq<EntityConfiguration>)
      requires trustAnchorConfiguration != null
      modifies (set e | e in layer), trustAnchorConfiguration, this`superiorQueries
      ensures Subs(next) == NextLayer(services, Subs(layer), maxAuthorityHints, [trustAnchorConfiguration.sub])
      ensures forall e :: e in next ==> e == trustAnchorConfiguration || (fresh(e) && FreshlyFetched(services, e))
      ensures superiorQueries == old(superiorQueries) + Queries(Subs(layer), maxAuthorityHints, [trustAnchorConfiguration])
      ensures |layer| == 1 ==>
                SuperiorsRecorded(layer[0], old(layer[0].verifiedSuperiors), old(Subs(layer[0].verifiedBySuperiors)),
                                  Contribution(services, layer[0].sub, maxAuthorityHints, [trustAnchorConfiguration.sub]))
    {
      next := [];
      var anchor := trustAnchorConfiguration;
      var hints := [anchor];
      ghost var hintSubs := [anchor.sub];
      assert Subs(hints) == hintSubs;
      for i := 0 to |layer|
        invariant trustAnchorConfiguration == anchor && Subs(hints) == hintSubs
        invariant Subs(next) == NextLayer(services, Subs(layer[..i]), maxAuthorityHints, hintSubs)
        invariant forall e :: e in next ==> e == anchor || (fresh(e) && FreshlyFetched(services, e))
        invariant superiorQueries == old(superiorQueries) + Queries(Subs(layer[..i]), maxAuthorityHints, hints)
        invariant |layer| == 1 && i == 0 ==>
                    && layer[0].verifiedSuperiors == old(layer[0].verifiedSuperiors)
                    && layer[0].verifiedBySuperiors == old(layer[0].verifiedBySuperiors)
        invariant |layer| == 1 && i == 1 ==>
                    SuperiorsRecorded(layer[0], old(layer[0].verifiedSuperiors), old(Subs(layer[0].verifiedBySuperiors)),
                                      Contribution(services, layer[0].sub, maxAuthorityHints, hintSubs))
      {
        QueriesStep(layer, i, maxAuthorityHints, hints);
        ConcatAssoc(old(superiorQueries), Queries(Subs(layer[..i]), maxAuthorityHints, hints),
                    [Query(layer[i].sub, maxAuthorityHints, hints)]);
        next := ExtendLayerStep(layer, i, hints, next);
      }
      assert layer[..|layer|] == layer;
    }

    /** One round of the loop of `ExtendLayer`: entity `layer[i]` appends
        its contribution to the next layer. */
    method ExtendLayerStep(layer: seq<EntityConfiguration>, i: nat, hints: seq<EntityConfiguration>,
                           next: seq<EntityConfiguration>) returns (grown: seq<EntityConfiguration>)
      requires i < |layer| && trustAnchorConfiguration != null && hints == [trustAnchorConfiguration]
      requires Subs(next) == NextLayer(services, Subs(layer[..i]), maxAuthorityHints, [trustAnchorConfiguration.sub])
      modifies layer[i], trustAnchorConfiguration, this`superiorQueries
      ensures Subs(grown) == NextLayer(services, Subs(layer[..i + 1]), maxAuthorityHints, [trustAnchorConfiguration.sub])
      ensures forall e :: e in grown ==>
                e in next || e == trustAnchorConfiguration || (fresh(e) && FreshlyFetched(services, e))
      ensures superiorQueries == old(superiorQueries) + [Query(layer[i].sub, maxAuthorityHints, hints)]
      ensures SuperiorsRecorded(layer[i], old(layer[i].verifiedSuperiors), old(Subs(layer[i].verifiedBySuperiors)),
                                Contribution(services, layer[i].sub, maxAuthorityHints, [trustAnchorConfiguration.sub]))
    {
      assert Subs(hints) == [trustAnchorConfiguration.sub];
      NextLayerStep(services, layer, i, maxAuthorityHints, [trustAnchorConfiguration.sub]);
      grown := VerifiedSuperiorsOf(layer[i], hints, next);
    }

    /** The `try` block of `discovery` for one entity `ec`: asks for its
        superiors (logged as a query) and appends to `supEcs` those that
        then verify `ec`; appends nothing when either call raises. */
    method VerifiedSuperiorsOf(ec: EntityConfiguration, hints: seq<EntityConfiguration>,
                               supEcs: seq<EntityConfiguration>)
      returns (grown: seq<EntityConfiguration>)
      modifies ec`verifiedBySuperiors, ec`verifiedSuperiors, (set e | e in hints)`verifiedDescendantStatements
      modifies this`superiorQueries
      ensures superiorQueries == old(superiorQueries) + [Query(ec.sub, maxAuthorityHints, hints)]
      ensures forall e :: e in hints ==>
                KeepsOthers(old(e.verifiedDescendantStatements), e.verifiedDescendantStatements, ec.sub)
      ensures forall e :: e in hints && services.subordinateStatement(e.sub, ec.sub).None? ==>
                e.verifiedDescendantStatements == old(e.verifiedDescendantStatements)
      ensures Subs(grown) == Subs(supEcs) + Contribution(services, ec.sub, maxAuthorityHints, Subs(hints))
      ensures forall e :: e in grown ==> e in supEcs || e in hints || (fresh(e) && FreshlyFetched(services, e))
      ensures SuperiorsRecorded(ec, old(ec.verifiedSuperiors), old(Subs(ec.verifiedBySuperiors)),
                                Contribution(services, ec.sub, maxAuthorityHints, Subs(hints)))
      ensures |supEcs| <= |grown| && AllRecorded(services, grown[|supEcs|..], ec.sub)
    {
      grown := supEcs;
      superiorQueries := superiorQueries + [Query(ec.sub, maxAuthorityHints, hints)];
      var superiors := ec.GetSuperiors(services, maxAuthorityHints, hints);
      if superiors.Ok? {
        label Fetched:
        var validated := ec.ValidateBySuperiors(services, superiors.value);
        if validated.Ok? {
          forall e | e in validated.value && e !in hints
            ensures fresh(e) && FreshlyFetched(services, e)
          {
            assert e in superiors.value && fresh(e) && e != ec;
            assert old@Fetched(FreshlyFetched(services, e));
          }
          SubsConcat(supEcs, validated.value);
          grown := supEcs + validated.value;
          assert grown[|supEcs|..] == validated.value;
        }
      }
      assert Subs(supEcs) + [] == Subs(supEcs);
    }

    /** `discovery`: builds the tree of trust, then runs the terminal check
        on the subject. */
    method Discovery(fuel: nat) returns (r: Result<(), Error>)
      requires Resolved()
      modifies this, Participants()
      ensures subjectConfiguration == old(subjectConfiguration)
      ensures trustAnchorConfiguration == old(trustAnchorConfiguration)
      ensures maxPathLen == old(maxPathLen) && fetches == old(fetches)
      ensures trace == old(trace) + [Discover]
      ensures |treeOfTrust| == Max(Max(|old(treeOfTrust)|, 1), maxPathLen + 1)
      ensures treeOfTrust[0] == [subjectConfiguration]
      ensures forall k :: 1 <= k < |old(treeOfTrust)| ==> treeOfTrust[k] == old(treeOfTrust)[k]
      ensures Layered(services, LayerSubs(treeOfTrust), Max(|old(treeOfTrust)|, 1) - 1, maxAuthorityHints,
                      [trustAnchorConfiguration.sub])
      ensures old(treeOfTrust) == [] ==>
                LayerSubs(treeOfTrust)
                == Tree(services, subjectConfiguration.sub, maxAuthorityHints, [trustAnchorConfiguration.sub],
                        Max(maxPathLen, 0))
      ensures old(superiorQueries) <= superiorQueries
      ensures Hinted(superiorQueries[|old(superiorQueries)|..], maxAuthorityHints, [trustAnchorConfiguration])
      ensures Max(|old(treeOfTrust)|, 1) - 1 >= maxPathLen ==> superiorQueries == old(superiorQueries)
      ensures isValid == (old(isValid) || AnchorVerified(subjectConfiguration))
      ensures r.Ok? && old(trustPath) == [] && trustPath != [] ==> trustPath[0] == Config(subjectConfiguration)
      ensures r.Ok? && old(trustPath) == [] ==> MetadataOutcome(old(finalMetadata))
      ensures !isValid ==> trustPath == old(trustPath) && finalMetadata == old(finalMetadata)
      ensures && |old(treeOfTrust)| <= 1 && subjectConfiguration != trustAnchorConfiguration
              && old(subjectConfiguration.verifiedSuperiors) == {} && old(subjectConfiguration.verifiedBySuperiors) == []
              ==> isValid == (|| old(isValid)
                              || SubjectAccepted(services, trustAnchor, trustAnchorConfiguration.sub, subjectConfiguration.sub,
                                                 maxAuthorityHints, maxPathLen))
      ensures && |old(treeOfTrust)| <= 1 && subjectConfiguration != trustAnchorConfiguration
              && old(subjectConfiguration.verifiedSuperiors) == {} && old(subjectConfiguration.verifiedBySuperiors) == []
              && subjectConfiguration.sub == subject && old(trustPath) == [] && -1 <= maxPathLen <= 0 && fuel > 0
              && SubjectAccepted(services, trustAnchor, trustAnchorConfiguration.sub, subject, maxAuthorityHints, maxPathLen)
              ==> var statement := services.subordinateStatement(trustAnchorConfiguration.sub, subject).value;
                  var m := FinalMetadata(services.applyPolicy, subjectConfiguration.payload, metadataType,
                                         [Statement(statement)]);
                  && trustPath == [Config(subjectConfiguration), Statement(statement)]
                  && (r.Ok? <==> m.Ok?) && (r.Err? ==> r.error == m.error) && (r.Ok? ==> finalMetadata == m.value)
    {
      trace := trace + [Discover];
      BuildTree();
      if && |old(treeOfTrust)| <= 1 && subjectConfiguration != trustAnchorConfiguration
         && old(subjectConfiguration.verifiedSuperiors) == {} && old(subjectConfiguration.verifiedBySuperiors) == [] {
        AcceptedAfterTree();
      }
      r := ValidateLastPathToTrustAnchor(subjectConfiguration, fuel);
    }

    /** After the tree is built from a subject with an empty record of
        superiors, the terminal check accepts it exactly when the inputs say
        so. */
    lemma AcceptedAfterTree()
      requires Resolved() && subjectConfiguration != trustAnchorConfiguration
      requires maxPathLen >= 1 ==>
                 SuperiorsRecorded(subjectConfiguration, {}, [],
                                   Contribution(services, subjectConfiguration.sub, maxAuthorityHints,
                                                [trustAnchorConfiguration.sub]))
      requires maxPathLen < 1 ==> subjectConfiguration.verifiedSuperiors == {}
      ensures AnchorAccepts(subjectConfiguration)
              == SubjectAccepted(services, trustAnchor, trustAnchorConfiguration.sub, subjectConfiguration.sub,
                                 maxAuthorityHints, maxPathLen)
    {
      var subj := subjectConfiguration;
      var anchorSub := trustAnchorConfiguration.sub;
      var c := Contribution(services, subj.sub, maxAuthorityHints, [anchorSub]);
      assert anchorSub in c <==> VerifiedSuperior(services, subj.sub, anchorSub, maxAuthorityHints, [anchorSub]);
      if anchorSub in subj.verifiedSuperiors {
        assert anchorSub in Subs(subj.verifiedBySuperiors);
      }
    }

    /** The tree-building part of `discovery`: layer 0 becomes the subject,
        then layers are added by `GrowTree`. */
    method BuildTree()
      requires Resolved()
      modifies this`treeOfTrust, this`superiorQueries, TopEntities(treeOfTrust)
      modifies subjectConfiguration, trustAnchorConfiguration
      ensures |treeOfTrust| == Max(Max(|old(treeOfTrust)|, 1), maxPathLen + 1)
      ensures treeOfTrust[0] == [subjectConfiguration]
      ensures forall k :: 1 <= k < |old(treeOfTrust)| ==> treeOfTrust[k] == old(treeOfTrust)[k]
      ensures Layered(services, LayerSubs(treeOfTrust), Max(|old(treeOfTrust)|, 1) - 1, maxAuthorityHints,
                      [trustAnchorConfiguration.sub])
      ensures old(treeOfTrust) == [] ==>
                LayerSubs(treeOfTrust)
                == Tree(services, subjectConfiguration.sub, maxAuthorityHints, [trustAnchorConfiguration.sub],
                        Max(maxPathLen, 0))
      ensures old(superiorQueries) <= superiorQueries
      ensures Hinted(superiorQueries[|old(superiorQueries)|..], maxAuthorityHints, [trustAnchorConfiguration])
      ensures Max(|old(treeOfTrust)|, 1) - 1 >= maxPathLen ==> superiorQueries == old(superiorQueries)
      ensures Max(|old(treeOfTrust)|, 1) - 1 >= maxPathLen ==>
                unchanged(subjectConfiguration) && unchanged(trustAnchorConfiguration)
      ensures |old(treeOfTrust)| <= 1 && maxPathLen >= 1 && subjectConfiguration != trustAnchorConfiguration ==>
                SuperiorsRecorded(subjectConfiguration, old(subjectConfiguration.verifiedSuperiors),
                                  old(Subs(subjectConfiguration.verifiedBySuperiors)),
                                  Contribution(services, subjectConfiguration.sub, maxAuthorityHints,
                                               [trustAnchorConfiguration.sub]))
    {
      var subj := subjectConfiguration;
      var anchor := trustAnchorConfiguration;
      ghost var oldTree := treeOfTrust;
      if treeOfTrust == [] {
        treeOfTrust := [[subj]];
      } else {
        treeOfTrust := [[subj]] + treeOfTrust[1..];
      }
      ghost var tree0 := treeOfTrust;
      assert |tree0| == Max(|oldTree|, 1);
      GrowTree(treeOfTrust[|treeOfTrust| - 1]);
      assert forall k :: 1 <= k < |oldTree| ==> treeOfTrust[k] == tree0[k];
      if oldTree == [] {
        TreeUnique(services, subj.sub, maxAuthorityHints, [anchor.sub], LayerSubs(treeOfTrust));
      }
    }

    /** `start`: resolves the anchor, then the subject, then runs discovery;
        any failure leaves the chain not valid and is passed on. */
    method Start(fuel: nat) returns (r: Result<(), Error>)
      modifies this, Participants()
      ensures r.Err? ==> !isValid
      ensures r.Ok? ==> trace == old(trace) + [ResolveAnchor, ResolveSubject, Discover]
      ensures r.Err? ==>
                || trace == old(trace) + [ResolveAnchor]
                || trace == old(trace) + [ResolveAnchor, ResolveSubject]
                || trace == old(trace) + [ResolveAnchor, ResolveSubject, Discover]
      ensures old(subjectConfiguration) != null ==> subjectConfiguration == old(subjectConfiguration)
      ensures r.Ok? ==> Resolved()
      ensures r.Ok? && old(subjectConfiguration) == null ==> subjectConfiguration.sub == subject
      ensures r.Ok? ==>
                match trustAnchorConfiguration.payload.maxPathLength
                case Some(v) => maxPathLen == if v != 0 then v else old(maxPathLen)
                case None => maxPathLen == old(maxPathLen)
      ensures trustAnchor.AnchorConfig? ==>
                match trustAnchor.config.payload.maxPathLength
                case Some(v) => maxPathLen == if v != 0 then v else old(maxPathLen)
                case None => maxPathLen == old(maxPathLen)
      ensures r.Ok? ==> isValid == (old(isValid) || AnchorVerified(subjectConfiguration))
      ensures r.Ok? && old(treeOfTrust) == [] ==>
                LayerSubs(treeOfTrust)
                == Tree(services, subjectConfiguration.sub, maxAuthorityHints, [trustAnchorConfiguration.sub],
                        Max(maxPathLen, 0))
      ensures r.Ok? ==> old(superiorQueries) <= superiorQueries
      ensures r.Ok? ==>
                Hinted(superiorQueries[|old(superiorQueries)|..], maxAuthorityHints, [trustAnchorConfiguration])
      ensures old(treeOfTrust) == [] && maxPathLen <= 0 ==> superiorQueries == old(superiorQueries)
      ensures r.Ok? && old(trustPath) == [] && trustPath != [] ==> trustPath[0] == Config(subjectConfiguration)
      ensures r.Ok? && old(trustPath) == [] ==> MetadataOutcome(old(finalMetadata))
      ensures r.Ok? && !isValid ==> trustPath == old(trustPath) && finalMetadata == old(finalMetadata)
      ensures r.Ok? && old(subjectConfiguration) == null && old(treeOfTrust) == [] ==>
                isValid == (|| old(isValid)
                            || SubjectAccepted(services, trustAnchor, trustAnchorConfiguration.sub, subject,
                                               maxAuthorityHints, maxPathLen))
      ensures && old(subjectConfiguration) == null && old(treeOfTrust) == [] && old(trustPath) == [] && fuel > 0
              && trustAnchor.AnchorConfig? && SubjectFetchable(services, subject) && -1 <= maxPathLen <= 0
              && SubjectAccepted(services, trustAnchor, trustAnchor.config.sub, subject, maxAuthorityHints, maxPathLen)
              ==> var statement := services.subordinateStatement(trustAnchor.config.sub, subject).value;
                  var m := FinalMetadata(services.applyPolicy, services.entityConfiguration(subject).value, metadataType,
                                         [Statement(statement)]);
                  && subjectConfiguration != null
                  && trustPath == [Config(subjectConfiguration), Statement(statement)]
                  && (r.Ok? <==> m.Ok?) && (r.Err? ==> r.error == m.error)
                  && (r.Ok? ==> isValid && finalMetadata == m.value)
    {
      r := ResolveConfigurations();
      if r.Err? {
        isValid := false;
        return;
      }
      r := Discovery(fuel);
      if r.Err? {
        isValid := false;
      }
    }

    /** The first two steps of `start`: the anchor, then the subject. */
    method ResolveConfigurations() returns (r: Result<(), Error>)
      modifies this`trustAnchorConfiguration, this`subjectConfiguration, this`maxPathLen, this`fetches, this`trace
      ensures r.Ok? ==> trace == old(trace) + [ResolveAnchor, ResolveSubject]
      ensures r.Err? ==> trace == old(trace) + [ResolveAnchor] || trace == old(trace) + [ResolveAnchor, ResolveSubject]
      ensures old(subjectConfiguration) != null ==> subjectConfiguration == old(subjectConfiguration)
      ensures subjectConfiguration == old(subjectConfiguration) || fresh(subjectConfiguration)
      ensures || trustAnchorConfiguration == old(trustAnchorConfiguration)
              || trustAnchorConfiguration in AnchorObjects(trustAnchor)
              || fresh(trustAnchorConfiguration)
      ensures r.Ok? ==> Resolved()
      ensures r.Ok? && old(subjectConfiguration) == null ==> subjectConfiguration.sub == subject
      ensures r.Ok? && old(subjectConfiguration) == null ==>
                && subjectConfiguration != trustAnchorConfiguration
                && subjectConfiguration.verifiedSuperiors == {} && subjectConfiguration.verifiedBySuperiors == []
      ensures old(subjectConfiguration) == null && trustAnchor.AnchorConfig? && SubjectFetchable(services, subject) ==>
                r.Ok? && subjectConfiguration.payload == services.entityConfiguration(subject).value
      ensures trustAnchor.AnchorConfig? ==>
                && trustAnchorConfiguration == trustAnchor.config
                && match trustAnchor.config.payload.maxPathLength
                   case Some(v) => maxPathLen == if v != 0 then v else old(maxPathLen)
                   case None => maxPathLen == old(maxPathLen)
      ensures r.Ok? ==>
                match trustAnchorConfiguration.payload.maxPathLength
                case Some(v) => maxPathLen == if v != 0 then v else old(maxPathLen)
                case None => maxPathLen == old(maxPathLen)
    {
      r := GetTrustAnchorConfiguration();
      if r.Err? {
        return;
      }
      r := GetSubjectConfiguration();
      assert trace == old(trace) + [ResolveAnchor, ResolveSubject];
    }

    /** The `while` loop of `discovery`: adds layers, each built from the
        one before, until the tree has `max_path_len + 1` of them. */
    method GrowTree(top: seq<EntityConfiguration>)
      requires trustAnchorConfiguration != null && |treeOfTrust| >= 1 && treeOfTrust[|treeOfTrust| - 1] == top
      modifies this`treeOfTrust, this`superiorQueries, (set e | e in top), trustAnchorConfiguration
      ensures |treeOfTrust| == Max(old(|treeOfTrust|), maxPathLen + 1)
      ensures treeOfTrust[..old(|treeOfTrust|)] == old(treeOfTrust)
      ensures Layered(services, LayerSubs(treeOfTrust), old(|treeOfTrust|) - 1, maxAuthorityHints,
                      [trustAnchorConfiguration.sub])
      ensures old(superiorQueries) <= superiorQueries
      ensures Hinted(superiorQueries[|old(superiorQueries)|..], maxAuthorityHints, [trustAnchorConfiguration])
      ensures |treeOfTrust| == old(|treeOfTrust|) ==> superiorQueries == old(superiorQueries)
      ensures |treeOfTrust| == old(|treeOfTrust|) ==> unchanged(set e | e in top) && unchanged(trustAnchorConfiguration)
      ensures |top| == 1 && top[0] != trustAnchorConfiguration && |treeOfTrust| > old(|treeOfTrust|) ==>
                SuperiorsRecorded(top[0], old(top[0].verifiedSuperiors), old(Subs(top[0].verifiedBySuperiors)),
                                  Contribution(services, top[0].sub, maxAuthorityHints, [trustAnchorConfiguration.sub]))
    {
      ghost var start := |treeOfTrust|;
      var anchor := trustAnchorConfiguration;
      ghost var added: seq<Query> := [];
      ghost var last := top;
      while |treeOfTrust| - 1 < maxPathLen
        invariant start <= |treeOfTrust| <= Max(start, maxPathLen + 1)
        invariant treeOfTrust[..start] == old(treeOfTrust) && treeOfTrust[|treeOfTrust| - 1] == last
        invariant Layered(services, LayerSubs(treeOfTrust), start - 1, maxAuthorityHints, [anchor.sub])
        invariant |treeOfTrust| == start ==> last == top
        invariant |treeOfTrust| > start ==> forall e :: e in last ==> e == anchor || fresh(e)
        invariant superiorQueries == old(superiorQueries) + added && Hinted(added, maxAuthorityHints, [anchor])
        invariant |treeOfTrust| == start ==> added == []
        invariant |treeOfTrust| == start ==> unchanged(set e | e in top) && unchanged(anchor)
        invariant |top| == 1 && top[0] != anchor && |treeOfTrust| > start ==>
                    SuperiorsRecorded(top[0], old(top[0].verifiedSuperiors), old(Subs(top[0].verifiedBySuperiors)),
                                      Contribution(services, top[0].sub, maxAuthorityHints, [anchor.sub]))
        decreases maxPathLen - |treeOfTrust|
      {
        var layer := treeOfTrust[|treeOfTrust| - 1];
        ghost var layers := LayerSubs(treeOfTrust);
        assert layers[|layers| - 1] == Subs(layer);
        ghost var round := Queries(Subs(layer), maxAuthorityHints, [anchor]);
        var next := ExtendLayer(layer);
        ConcatAssoc(old(superiorQueries), added, round);
        assert Hinted(added + round, maxAuthorityHints, [anchor]);
        added := added + round;
        LayerSubsAppend(treeOfTrust, next);
        LayeredAppend(services, layers, Subs(next), start - 1, maxAuthorityHints, [anchor.sub]);
        assert (treeOfTrust + [next])[..start] == treeOfTrust[..start];
        treeOfTrust := treeOfTrust + [next];
        last := next;
      }
      assert superiorQueries[|old(superiorQueries)|..] == added;
    }
  }

  lemma LayerSubsAppend(tree: seq<seq<EntityConfiguration>>, next: seq<EntityConfiguration>)
    ensures LayerSubs(tree + [next]) == LayerSubs(tree) + [Subs(next)]
  {
    var t := tree + [next];
    assert forall k :: 0 <= k < |tree| ==> t[k] == tree[k];
  }

  /** Every query in `qs` passes `maxAuthorityHints` and `hints`. */
  predicate Hinted(qs: seq<Query>, maxAuthorityHints: int, hints: seq<EntityConfiguration>)
  {
    forall q :: q in qs ==> q.maxAuthorityHints == maxAuthorityHints && q.hints == hints
  }

  /** The queries of one discovery round over the entities `subs`. */
  function Queries(subs: seq<string>, maxAuthorityHints: int, hints: seq<EntityConfiguration>): (r: seq<Query>)
    ensures |r| == |subs|
    ensures forall i :: 0 <= i < |subs| ==> r[i] == Query(subs[i], maxAuthorityHints, hints)
  {
    seq(|subs|, i requires 0 <= i < |subs| => Query(subs[i], maxAuthorityHints, hints))
  }

  lemma QueriesStep(layer: seq<EntityConfiguration>, i: nat, maxAuthorityHints: int,
                    hints: seq<EntityConfiguration>)
    requires i < |layer|
    ensures Queries(Subs(layer[..i + 1]), maxAuthorityHints, hints)
            == Queries(Subs(layer[..i]), maxAuthorityHints, hints) + [Query(layer[i].sub, maxAuthorityHints, hints)]
  {
  }

  /** `trust_chain_builder`: a builder with the default cap on authority
      hints and no subject configuration is started; the result is
      `NotValid` when the chain is not valid, and the builder otherwise. */
  method BuildTrustChain(subject: string, trustAnchor: Anchor, services: Services, fuel: nat,
                         requiredTrustMarks: seq<string> := [], metadataType: string := DefaultMetadataType)
    returns (r: Result<ChainOutcome, Error>, ghost tc: TrustChainBuilder)
    modifies AnchorObjects(trustAnchor)
    ensures fresh(tc) && tc.subject == subject && tc.trustAnchor == trustAnchor
    ensures tc.maxAuthorityHints == DefaultMaxAuthorityHints && tc.metadataType == metadataType
    ensures r.Err? ==> !tc.isValid
    ensures r.Ok? ==> (r.value.NotValid? <==> !tc.isValid)
    ensures r.Ok? && r.value.Valid? ==> r.value.builder == tc
    ensures r.Ok? ==> tc.trace == [ResolveAnchor, ResolveSubject, Discover]
    ensures r.Ok? ==> tc.Resolved() && tc.subjectConfiguration.sub == subject
    ensures r.Ok? ==> (tc.isValid <==> tc.AnchorVerified(tc.subjectConfiguration))
    ensures r.Ok? ==>
              LayerSubs(tc.treeOfTrust)
              == Tree(services, subject, DefaultMaxAuthorityHints, [tc.trustAnchorConfiguration.sub],
                      Max(tc.maxPathLen, 0))
    ensures r.Ok? ==> Hinted(tc.superiorQueries, DefaultMaxAuthorityHints, [tc.trustAnchorConfiguration])
    ensures tc.maxPathLen <= 0 ==> tc.superiorQueries == []
    ensures r.Ok? ==> tc.MetadataOutcome(map[])
    ensures r.Ok? ==>
              tc.maxPathLen == match tc.trustAnchorConfiguration.payload.maxPathLength
                               case Some(v) => v
                               case None => 0
    ensures r.Ok? ==>
              (r.value.Valid? <==>
                 SubjectAccepted(services, trustAnchor, tc.trustAnchorConfiguration.sub, subject,
                                 DefaultMaxAuthorityHints, tc.maxPathLen))
    ensures r.Ok? && r.value.NotValid? ==> tc.trustPath == [] && tc.finalMetadata == map[]
    ensures && trustAnchor.AnchorConfig? && fuel > 0 && SubjectFetchable(services, subject)
            && (trustAnchor.config.payload.maxPathLength.None? || -1 <= trustAnchor.config.payload.maxPathLength.value <= 0)
            && !services.validationRaises(subject, [trustAnchor.config.sub])
            && services.subordinateStatement(trustAnchor.config.sub, subject).Some?
            ==> var statement := services.subordinateStatement(trustAnchor.config.sub, subject).value;
                var payload := services.entityConfiguration(subject).value;
                var m := FinalMetadata(services.applyPolicy, payload, metadataType, [Statement(statement)]);
                && (r.Ok? <==> m.Ok?) && (r.Err? ==> r.error == m.error)
                && (r.Ok? ==> && r.value.Valid? && tc.subjectConfiguration != null
                              && tc.trustPath == [Config(tc.subjectConfiguration), Statement(statement)]
                              && tc.finalMetadata == m.value)
                && (metadataType in payload.metadata && metadataType in statement.metadataPolicy ==>
                      var direct := services.applyPolicy(payload.metadata[metadataType],
                                                         statement.metadataPolicy[metadataType]);
                      && (r.Ok? <==> direct.Ok?)
                      && (r.Ok? ==> tc.finalMetadata == direct.value))
  {
    if && trustAnchor.AnchorConfig? && SubjectFetchable(services, subject)
       && metadataType in services.entityConfiguration(subject).value.metadata
       && services.subordinateStatement(trustAnchor.config.sub, subject).Some?
       && metadataType in services.subordinateStatement(trustAnchor.config.sub, subject).value.metadataPolicy {
      DirectPathMetadata(services.applyPolicy, services.entityConfiguration(subject).value, metadataType,
                         services.subordinateStatement(trustAnchor.config.sub, subject).value);
    }
    var builder := new TrustChainBuilder(subject, trustAnchor, services,
                                         requiredTrustMarks := requiredTrustMarks, metadataType := metadataType);
    tc := builder;
    var started := builder.Start(fuel);
    if started.Err? {
      return Err(started.error), tc;
    }
    assert builder.superiorQueries[0..] == builder.superiorQueries;
    if !builder.isValid {
      r := Ok(NotValid);
    } else {
      r := Ok(Valid(builder));
    }
  }
}
