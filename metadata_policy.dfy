/** The final-metadata computation of the trust-chain walker: starting from
    the subject's own metadata of the requested type, the metadata policy of
    every trust-path entry after the subject is merged in, in path order,
    from the closest superior outwards. The merge itself (`apply_policy`) is
    a parameter. */
module MetadataPolicy {
  import opened Wrappers
  import opened Statements

  /** An element of `trust_path`: the subject's configuration (always
      first), the identifier of an intermediate superior, or the payload of
      the statement the trust anchor issued about the subject. */
  datatype PathEntry =
    | Config(ec: EntityConfiguration)
    | SubjectId(id: string)
    | Statement(payload: Payload)

  /** `i['metadata_policy'][metadata_type]` for a trust-path entry `i`: only
      a statement payload can be indexed by a key. A payload without a
      `metadata_policy` claim holds an empty map here, so its failure is
      reported as `KeyError(metadataType)` where Python names the missing
      key `'metadata_policy'`. */
  function PolicyOf(entry: PathEntry, metadataType: string): Result<Policy, Error>
  {
    match entry
    case Statement(p) =>
      if metadataType in p.metadataPolicy then Ok(p.metadataPolicy[metadataType])
      else Err(KeyError(metadataType))
    case _ => Err(TypeError)
  }

  /** The reference merge: the left fold of `applyPolicy` over a list of
      policies, stopping at the first failure. */
  function FoldPolicies(applyPolicy: (Metadata, Policy) -> Result<Metadata, Error>,
                        base: Metadata, policies: seq<Policy>): Result<Metadata, Error>
    decreases |policies|
  {
    if policies == [] then Ok(base)
    else
      match applyPolicy(base, policies[0])
      case Err(e) => Err(e)
      case Ok(m) => FoldPolicies(applyPolicy, m, policies[1..])
  }

  /** The merge along trust-path entries as the walker runs it: each entry's
      policy is looked up, then merged, before the next entry is read. */
  function MergeAlongPath(applyPolicy: (Metadata, Policy) -> Result<Metadata, Error>,
                          base: Metadata, metadataType: string,
                          entries: seq<PathEntry>): Result<Metadata, Error>
    decreases |entries|
  {
    if entries == [] then Ok(base)
    else
      match PolicyOf(entries[0], metadataType)
      case Err(e) => Err(e)
      case Ok(policy) =>
        match applyPolicy(base, policy)
        case Err(e) => Err(e)
        case Ok(m) => MergeAlongPath(applyPolicy, m, metadataType, entries[1..])
  }

  /** One more entry merged onto an intermediate result. */
  function MergeStep(applyPolicy: (Metadata, Policy) -> Result<Metadata, Error>,
                     acc: Result<Metadata, Error>, metadataType: string,
                     entry: PathEntry): Result<Metadata, Error>
  {
    match acc
    case Err(e) => Err(e)
    case Ok(m) =>
      match PolicyOf(entry, metadataType)
      case Err(e) => Err(e)
      case Ok(policy) => applyPolicy(m, policy)
  }

  /** The final metadata for a trust path whose entries after the subject
      are `entries`: the subject's metadata of the requested type (a
      `KeyError` when it declares none), merged along the entries. */
  function FinalMetadata(applyPolicy: (Metadata, Policy) -> Result<Metadata, Error>,
                         subjectPayload: Payload, metadataType: string,
                         entries: seq<PathEntry>): Result<Metadata, Error>
  {
    if metadataType !in subjectPayload.metadata then Err(KeyError(metadataType))
    else MergeAlongPath(applyPolicy, subjectPayload.metadata[metadataType], metadataType, entries)
  }

  /** Merging is a left fold: appending an entry merges it onto the result
      of the entries before it. */
  lemma {:induction false} MergeAppend(applyPolicy: (Metadata, Policy) -> Result<Metadata, Error>,
                                       base: Metadata, metadataType: string,
                                       entries: seq<PathEntry>, entry: PathEntry)
    ensures MergeAlongPath(applyPolicy, base, metadataType, entries + [entry])
            == MergeStep(applyPolicy, MergeAlongPath(applyPolicy, base, metadataType, entries), metadataType, entry)
    decreases |entries|
  {
    if entries == [] {
      assert [entry][1..] == [];
    } else {
      assert (entries + [entry])[1..] == entries[1..] + [entry];
      match PolicyOf(entries[0], metadataType)
      case Err(e) =>
      case Ok(policy) =>
        match applyPolicy(base, policy)
        case Err(e) =>
        case Ok(m) =>
          MergeAppend(applyPolicy, m, metadataType, entries[1..], entry);
    }
  }

  /** A merge that fails on a prefix of the entries fails on all of them,
      with the same error. */
  lemma {:induction false} MergePrefixFails(applyPolicy: (Metadata, Policy) -> Result<Metadata, Error>,
                                            base: Metadata, metadataType: string,
                                            entries: seq<PathEntry>, k: nat)
    requires k <= |entries| && MergeAlongPath(applyPolicy, base, metadataType, entries[..k]).Err?
    ensures MergeAlongPath(applyPolicy, base, metadataType, entries)
            == MergeAlongPath(applyPolicy, base, metadataType, entries[..k])
    decreases |entries| - k
  {
    if k < |entries| {
      MergeAppend(applyPolicy, base, metadataType, entries[..k], entries[k]);
      assert entries[..k + 1] == entries[..k] + [entries[k]];
      MergePrefixFails(applyPolicy, base, metadataType, entries, k + 1);
    } else {
      assert entries[..k] == entries;
    }
  }

  /** The policies of a sequence of statement entries. */
  function Policies(entries: seq<PathEntry>, metadataType: string): (r: seq<Policy>)
    requires forall i :: 0 <= i < |entries| ==> PolicyOf(entries[i], metadataType).Ok?
    ensures |r| == |entries|
    ensures forall i :: 0 <= i < |entries| ==> r[i] == PolicyOf(entries[i], metadataType).value
  {
    seq(|entries|, i requires 0 <= i < |entries| => PolicyOf(entries[i], metadataType).value)
  }

  /** When every entry is a statement declaring a policy for the metadata
      type, merging along the path is exactly the left fold of
      `apply_policy` over those policies, in path order. */
  lemma {:induction false} MergeIsFoldOfPolicies(applyPolicy: (Metadata, Policy) -> Result<Metadata, Error>,
                                                 base: Metadata, metadataType: string,
                                                 entries: seq<PathEntry>)
    requires forall i :: 0 <= i < |entries| ==> PolicyOf(entries[i], metadataType).Ok?
    ensures MergeAlongPath(applyPolicy, base, metadataType, entries)
            == FoldPolicies(applyPolicy, base, Policies(entries, metadataType))
    decreases |entries|
  {
    if entries != [] {
      var pols := Policies(entries, metadataType);
      assert pols[1..] == Policies(entries[1..], metadataType);
      match applyPolicy(base, pols[0])
      case Err(e) =>
      case Ok(m) =>
        MergeIsFoldOfPolicies(applyPolicy, m, metadataType, entries[1..]);
    }
  }

  /** Any entry that is not a statement payload (an intermediate's
      identifier, or a configuration) makes the merge fail: a trust path
      through an intermediate never yields metadata. */
  lemma {:induction false} MergeFailsOnNonStatement(applyPolicy: (Metadata, Policy) -> Result<Metadata, Error>,
                                                    base: Metadata, metadataType: string,
                                                    entries: seq<PathEntry>, k: nat)
    requires k < |entries| && !entries[k].Statement?
    ensures MergeAlongPath(applyPolicy, base, metadataType, entries).Err?
    decreases k
  {
    if k > 0 {
      match PolicyOf(entries[0], metadataType)
      case Err(e) =>
      case Ok(policy) =>
        match applyPolicy(base, policy)
        case Err(e) =>
        case Ok(m) =>
          MergeFailsOnNonStatement(applyPolicy, m, metadataType, entries[1..], k - 1);
    }
  }

  /** The same for the final metadata: whatever the subject declares, a
      trust path with an entry that is not a statement payload fails. */
  lemma PathThroughIntermediateFails(applyPolicy: (Metadata, Policy) -> Result<Metadata, Error>,
                                     subjectPayload: Payload, metadataType: string,
                                     entries: seq<PathEntry>, k: nat)
    requires k < |entries| && !entries[k].Statement?
    ensures FinalMetadata(applyPolicy, subjectPayload, metadataType, entries).Err?
  {
    if metadataType in subjectPayload.metadata {
      MergeFailsOnNonStatement(applyPolicy, subjectPayload.metadata[metadataType], metadataType, entries, k);
    }
  }

  /** Merging composes left to right: merging `a + b` merges `b` onto the
      result of merging `a`. */
  lemma {:induction false} FoldPoliciesConcat(applyPolicy: (Metadata, Policy) -> Result<Metadata, Error>,
                                              base: Metadata, a: seq<Policy>, b: seq<Policy>)
    ensures FoldPolicies(applyPolicy, base, a + b)
            == match FoldPolicies(applyPolicy, base, a)
               case Err(e) => Err(e)
               case Ok(m) => FoldPolicies(applyPolicy, m, b)
    decreases |a|
  {
    if a == [] {
      assert a + b == b;
    } else {
      assert (a + b)[1..] == a[1..] + b;
      match applyPolicy(base, a[0])
      case Err(e) =>
      case Ok(m) =>
        FoldPoliciesConcat(applyPolicy, m, a[1..], b);
    }
  }

  /** A trust path made of the subject and the anchor's statement about it
      yields the subject's metadata merged with that statement's policy. */
  lemma DirectPathMetadata(applyPolicy: (Metadata, Policy) -> Result<Metadata, Error>,
                           subjectPayload: Payload, metadataType: string, statement: Payload)
    requires metadataType in subjectPayload.metadata && metadataType in statement.metadataPolicy
    ensures FinalMetadata(applyPolicy, subjectPayload, metadataType, [Statement(statement)])
            == applyPolicy(subjectPayload.metadata[metadataType], statement.metadataPolicy[metadataType])
  {
    var base := subjectPayload.metadata[metadataType];
    match applyPolicy(base, statement.metadataPolicy[metadataType])
    case Err(e) =>
    case Ok(m) =>
      assert [Statement(statement)][1..] == [];
      assert MergeAlongPath(applyPolicy, m, metadataType, []) == Ok(m);
  }
}
