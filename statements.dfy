/** The collaborators of the trust-chain walker: entity configurations, the
    subordinate statements superiors issue about them, the HTTP fetches and
    the signature checks behind them, and the metadata-policy merge.

    Their internals are not modelled. What the network and the cryptography
    would answer is supplied by a `Services` value; an `EntityConfiguration`
    keeps only the bookkeeping the walker reads back (which superiors
    verified it, and which descendant statements it verified). */
module Statements {
  import opened Wrappers

  /** The metadata of one metadata type (`openid_provider`, ...); its
      parameter values are kept opaque. */
  type Metadata = map<string, string>

  /** The metadata policy of one metadata type; its directives are kept
      opaque, only the merge function interprets them. */
  type Policy = map<string, string>

  /** The decoded payload of an entity configuration or of a subordinate
      statement, restricted to the claims the walker reads:
      `metadata` and `metadata_policy` by metadata type, and
      `constraints.max_path_length` (`None` when the claim is absent). */
  datatype Payload = Payload(
    metadata: map<string, Metadata>,
    metadataPolicy: map<string, Policy>,
    maxPathLength: Option<int>)

  /** The exceptions that can escape a step of the walk. */
  datatype Error =
    | FetchFailed(subject: string)              // no entity configuration could be fetched or decoded
    | SelfValidationFailed(subject: string)     // `validate_by_itself` rejected it
    | SuperiorsFailed(subject: string)          // `get_superiors` raised
    | SuperiorValidationFailed(subject: string) // `validate_by_superiors` raised
    | NotAConfiguration(identifier: string)     // an identifier passed where a configuration is expected
    | KeyError(key: string)                     // a missing dictionary key
    | MissingLayer(index: int)                  // a missing key of the tree of trust
    | TypeError                                 // a trust-path entry that is not a statement payload
    | PolicyViolation(reason: string)           // raised by the policy merge
    | OutOfFuel                                 // the walk did not finish within its fuel

  /** What the outside world answers.
      - `entityConfiguration(s)`: the payload of the entity configuration
        published by `s`, or `None` when fetching or decoding it fails.
      - `selfSigned(s, p)`: whether that configuration's signature verifies
        with its own keys and it has not expired.
      - `authorityHints(s, cap, hints)`: the superiors `get_superiors` looks
        up for `s`, in order, given the cap on authority hints and the
        subjects of the supplied hints; `None` when it raises.
      - `subordinateStatement(issuer, s)`: the statement `issuer` publishes
        about `s`, when it exists and verifies.
      - `validationRaises(s, cs)`: whether `validate_by_superiors` raises for
        `s` checked against the superiors whose subjects are `cs`.
      - `applyPolicy(m, p)`: the policy merge of `m` with `p`. */
  datatype Services = Services(
    entityConfiguration: string -> Option<Payload>,
    selfSigned: (string, Payload) -> bool,
    authorityHints: (string, int, seq<string>) -> Option<seq<string>>,
    subordinateStatement: (string, string) -> Option<Payload>,
    validationRaises: (string, seq<string>) -> bool,
    applyPolicy: (Metadata, Policy) -> Result<Metadata, Error>)

  lemma ConcatAssoc<T>(x: seq<T>, y: seq<T>, z: seq<T>)
    ensures (x + y) + z == x + (y + z)
  {
  }

  /** The subjects of a sequence of configurations, in order. */
  function Subs(es: seq<EntityConfiguration>): (r: seq<string>)
    ensures |r| == |es|
    ensures forall i :: 0 <= i < |es| ==> r[i] == es[i].sub
  {
    seq(|es|, i requires 0 <= i < |es| => es[i].sub)
  }

  lemma SubsAppend(es: seq<EntityConfiguration>, e: EntityConfiguration)
    ensures Subs(es + [e]) == Subs(es) + [e.sub]
  {
  }

  lemma SubsCons(e: EntityConfiguration, es: seq<EntityConfiguration>)
    ensures Subs([e] + es) == [e.sub] + Subs(es)
  {
    assert Subs([e] + es)[1..] == Subs(es);
  }

  /** The first configuration of `es` whose subject is `s`. */
  function FindBySub(es: seq<EntityConfiguration>, s: string): (r: Option<EntityConfiguration>)
    ensures r.Some? <==> s in Subs(es)
    ensures r.Some? ==> r.value in es && r.value.sub == s
  {
    if es == [] then None
    else if es[0].sub == s then Some(es[0])
    else
      assert Subs(es) == [es[0].sub] + Subs(es[1..]);
      FindBySub(es[1..], s)
  }

  /** `es` as an ordered dictionary keyed by subject, after `d[e.sub] = e`:
      an entry with the same subject is replaced in place, otherwise `e` is
      appended. */
  function Put(es: seq<EntityConfiguration>, e: EntityConfiguration): (r: seq<EntityConfiguration>)
    ensures e in r
    ensures Subs(r) == if e.sub in Subs(es) then Subs(es) else Subs(es) + [e.sub]
  {
    if es == [] then [e]
    else
      SubsCons(es[0], es[1..]);
      assert es == [es[0]] + es[1..];
      if es[0].sub == e.sub then
        SubsCons(e, es[1..]);
        [e] + es[1..]
      else
        var rest := Put(es[1..], e);
        assert e.sub in Subs(es) <==> e.sub in Subs(es[1..]);
        SubsCons(es[0], rest);
        [es[0]] + rest
  }

  /** After `Put`, looking `e.sub` up finds `e`. */
  lemma {:induction false} PutThenFind(es: seq<EntityConfiguration>, e: EntityConfiguration)
    ensures FindBySub(Put(es, e), e.sub) == Some(e)
  {
    if es != [] && es[0].sub != e.sub {
      PutThenFind(es[1..], e);
      assert Put(es, e)[1..] == Put(es[1..], e);
    }
  }

  /** `Put` leaves every entry under another subject where it was. */
  lemma {:induction false} PutKeepsOthers(es: seq<EntityConfiguration>, e: EntityConfiguration)
    ensures forall i :: 0 <= i < |es| && es[i].sub != e.sub ==> Put(es, e)[i] == es[i]
  {
    if es != [] {
      var r := Put(es, e);
      if es[0].sub == e.sub {
        assert r == [e] + es[1..];
      } else {
        PutKeepsOthers(es[1..], e);
        assert r[1..] == Put(es[1..], e);
        forall i | 0 <= i < |es| && es[i].sub != e.sub
          ensures r[i] == es[i]
        {
          if i > 0 {
            assert es[1..][i - 1] == es[i];
          }
        }
      }
    }
  }

  /** `Put` of a new subject appends it. */
  lemma {:induction false} PutNewAppends(es: seq<EntityConfiguration>, e: EntityConfiguration)
    requires e.sub !in Subs(es)
    ensures Put(es, e) == es + [e]
  {
    if es != [] {
      SubsCons(es[0], es[1..]);
      assert es == [es[0]] + es[1..];
      PutNewAppends(es[1..], e);
      assert Put(es, e) == [es[0]] + (es[1..] + [e]);
    }
  }

  /** `es` after `d[e.sub] = e` for each `e` of `news`, in order. */
  function PutAll(es: seq<EntityConfiguration>, news: seq<EntityConfiguration>): (r: seq<EntityConfiguration>)
    ensures forall s :: s in Subs(r) <==> s in Subs(es) || s in Subs(news)
    ensures |es| <= |r| && Subs(r)[..|es|] == Subs(es)
    decreases |news|
  {
    if news == [] then es
    else
      var front := news[..|news| - 1];
      assert news == front + [news[|news| - 1]];
      SubsAppend(front, news[|news| - 1]);
      Put(PutAll(es, front), news[|news| - 1])
  }

  /** Validation against a single candidate yields that candidate exactly
      when its statement verifies, and nothing otherwise; the entity's
      record of its superiors (`superiors0` and `subs0` before, `superiors`
      and `subs` after) gains that candidate or stays as it was. */
  lemma SingleCandidate(services: Services, sub: string, c: EntityConfiguration, v: seq<EntityConfiguration>,
                        superiors0: seq<EntityConfiguration>, subs0: set<string>,
                        superiors: seq<EntityConfiguration>, subs: set<string>)
    requires forall e :: e in v ==> e in [c]
    requires Subs(v) == VerifiedSubs(services, sub, [c.sub])
    requires superiors == PutAll(superiors0, v)
    requires forall s :: s in subs <==> s in subs0 || s in Subs(v)
    ensures v != [] <==> services.subordinateStatement(c.sub, sub).Some?
    ensures v != [] ==> v == [c] && superiors == PutAll(superiors0, [c]) && subs == subs0 + {c.sub}
    ensures v == [] ==> superiors == superiors0 && subs == subs0
  {
    var found := services.subordinateStatement(c.sub, sub).Some?;
    assert Subs(v) == if found then [c.sub] else [] by {
      assert [c.sub][..0] == [];
    }
    SubjectsAdded(subs, subs0, Subs(v));
    if v != [] {
      assert v[0] in [c];
      assert v == [c];
    }
  }

  /** A set whose members are those of `subs0` and of `added`, when
      `added` holds at most one subject. */
  lemma SubjectsAdded(subs: set<string>, subs0: set<string>, added: seq<string>)
    requires forall s :: s in subs <==> s in subs0 || s in added
    ensures added == [] ==> subs == subs0
    ensures |added| == 1 ==> subs == subs0 + {added[0]}
  {
    if |added| == 1 {
      forall s
        ensures s in subs <==> s in subs0 + {added[0]}
      {
        assert s in added <==> s == added[0];
      }
    }
  }

  lemma PutAllAppend(es: seq<EntityConfiguration>, news: seq<EntityConfiguration>, e: EntityConfiguration)
    ensures PutAll(es, news + [e]) == Put(PutAll(es, news), e)
  {
    assert (news + [e])[..|news|] == news;
  }

  /** The subjects `get_superiors` resolves from the candidate list: a
      subject already taken is skipped (the result is a dictionary keyed by
      subject), a supplied hint is used as it is, any other candidate is kept
      only when its entity configuration can be fetched. */
  function ResolveCandidates(services: Services, candidates: seq<string>, hintSubs: seq<string>,
                             taken: seq<string>): (r: seq<string>)
    ensures forall s :: s in r <==> (s in candidates && s !in taken
                                     && (s in hintSubs || services.entityConfiguration(s).Some?))
    ensures forall i, j :: 0 <= i < j < |r| ==> r[i] != r[j]
    decreases |candidates|
  {
    if candidates == [] then []
    else
      var s := candidates[0];
      if s !in taken && (s in hintSubs || services.entityConfiguration(s).Some?) then
        var rest := ResolveCandidates(services, candidates[1..], hintSubs, taken + [s]);
        assert s !in rest;
        assert forall t :: t in candidates <==> t == s || t in candidates[1..];
        [s] + rest
      else
        assert forall t :: t in candidates <==> t == s || t in candidates[1..];
        ResolveCandidates(services, candidates[1..], hintSubs, taken)
  }

  /** One step of `ResolveCandidates`, as the loop of `GetSuperiors` takes it:
      `done` are the subjects resolved so far and `goal` the whole result. */
  lemma ResolveAdvance(services: Services, candidates: seq<string>, i: nat, hintSubs: seq<string>,
                       done: seq<string>, goal: seq<string>)
    requires i < |candidates|
    requires done + ResolveCandidates(services, candidates[i..], hintSubs, done) == goal
    ensures var s := candidates[i];
            if s !in done && (s in hintSubs || services.entityConfiguration(s).Some?)
            then (done + [s]) + ResolveCandidates(services, candidates[i + 1..], hintSubs, done + [s]) == goal
            else done + ResolveCandidates(services, candidates[i + 1..], hintSubs, done) == goal
  {
    assert candidates[i..][1..] == candidates[i + 1..];
    var s := candidates[i];
    if s !in done && (s in hintSubs || services.entityConfiguration(s).Some?) {
      var rest := ResolveCandidates(services, candidates[i + 1..], hintSubs, done + [s]);
      ConcatAssoc(done, [s], rest);
    }
  }

  /** The subjects of the superiors `get_superiors` returns for `sub`, or
      `None` when it raises. */
  function SuperiorsOf(services: Services, sub: string, maxAuthorityHints: int,
                       hintSubs: seq<string>): Option<seq<string>>
  {
    match services.authorityHints(sub, maxAuthorityHints, hintSubs)
    case None => None
    case Some(candidates) => Some(ResolveCandidates(services, candidates, hintSubs, []))
  }

  /** The candidates, in order, whose statement about `sub` verifies. */
  function VerifiedSubs(services: Services, sub: string, candidates: seq<string>): (r: seq<string>)
    ensures forall s :: s in r <==> s in candidates && services.subordinateStatement(s, sub).Some?
    ensures |r| <= |candidates|
    decreases |candidates|
  {
    if candidates == [] then []
    else
      var s := candidates[|candidates| - 1];
      var front := candidates[..|candidates| - 1];
      assert candidates == front + [s];
      VerifiedSubs(services, sub, front)
        + (if services.subordinateStatement(s, sub).Some? then [s] else [])
  }

  class EntityConfiguration {
    const sub: string
    const payload: Payload
    /** The values of `verified_by_superiors`, an ordered dictionary keyed by
        each superior's subject. */
    var verifiedBySuperiors: seq<EntityConfiguration>
    var verifiedSuperiors: set<string>
    var verifiedDescendantStatements: map<string, Payload>

    constructor (sub: string, payload: Payload)
      ensures this.sub == sub && this.payload == payload
      ensures verifiedBySuperiors == [] && verifiedSuperiors == {}
      ensures verifiedDescendantStatements == map[]
    {
      this.sub := sub;
      this.payload := payload;
      verifiedBySuperiors := [];
      verifiedSuperiors := {};
      verifiedDescendantStatements := map[];
    }

    /** `validate_by_itself`: fails when the signature does not verify with
        the configuration's own keys. */
    function ValidateByItself(services: Services): Result<(), Error>
    {
      if services.selfSigned(sub, payload) then Ok(()) else Err(SelfValidationFailed(sub))
    }

    /** `get_superiors`: the configurations of this entity's superiors, the
        supplied hints reused as they are and the others fetched anew. */
    method GetSuperiors(services: Services, maxAuthorityHints: int,
                        superiorsHints: seq<EntityConfiguration>)
      returns (r: Result<seq<EntityConfiguration>, Error>)
      ensures r.Err? <==> SuperiorsOf(services, sub, maxAuthorityHints, Subs(superiorsHints)).None?
      ensures r.Ok? ==> SuperiorsOf(services, sub, maxAuthorityHints, Subs(superiorsHints)) == Some(Subs(r.value))
      ensures r.Ok? ==>
                forall e :: e in r.value ==>
                  e in superiorsHints || (fresh(e) && FreshlyFetched(services, e) && e.verifiedDescendantStatements == map[])
    {
      var hintSubs := Subs(superiorsHints);
      match services.authorityHints(sub, maxAuthorityHints, hintSubs)
      case None =>
        r := Err(SuperiorsFailed(sub));
      case Some(candidates) =>
        var found: seq<EntityConfiguration> := [];
        ghost var goal := ResolveCandidates(services, candidates, hintSubs, []);
        for i := 0 to |candidates|
          invariant Subs(found) + ResolveCandidates(services, candidates[i..], hintSubs, Subs(found)) == goal
          invariant forall e :: e in found ==>
                      e in superiorsHints || (fresh(e) && FreshlyFetched(services, e) && e.verifiedDescendantStatements == map[])
        {
          var s := candidates[i];
          ResolveAdvance(services, candidates, i, hintSubs, Subs(found), goal);
          if s !in Subs(found) {
            var hint := FindBySub(superiorsHints, s);
            if hint.Some? {
              SubsAppend(found, hint.value);
              found := found + [hint.value];
            } else {
              match services.entityConfiguration(s)
              case Some(p) =>
                var e := new EntityConfiguration(s, p);
                SubsAppend(found, e);
                found := found + [e];
              case None =>
            }
          }
        }
        assert candidates[|candidates|..] == [];
        assert Subs(found) + [] == Subs(found);
        r := Ok(found);
    }

    /** Records `superior` as having verified this entity with `statement`. */
    method RecordSuperior(superior: EntityConfiguration, statement: Payload)
      modifies this`verifiedBySuperiors, this`verifiedSuperiors, superior`verifiedDescendantStatements
      ensures verifiedBySuperiors == Put(old(verifiedBySuperiors), superior)
      ensures forall s :: s in old(Subs(verifiedBySuperiors)) ==> s in Subs(verifiedBySuperiors)
      ensures verifiedSuperiors == old(verifiedSuperiors) + {superior.sub}
      ensures superior.verifiedDescendantStatements == old(superior.verifiedDescendantStatements)[sub := statement]
    {
      verifiedBySuperiors := Put(verifiedBySuperiors, superior);
      verifiedSuperiors := verifiedSuperiors + {superior.sub};
      superior.verifiedDescendantStatements := superior.verifiedDescendantStatements[sub := statement];
    }

    /** `validate_by_superiors`: checks the statement each candidate issues
        about this entity; each superior that verifies is recorded in
        `verifiedBySuperiors` and `verifiedSuperiors`, and this entity's
        statement in the superior's `verifiedDescendantStatements`. Returns
        the superiors verified by this call, in candidate order. */
    method ValidateBySuperiors(services: Services, superiors: seq<EntityConfiguration>)
      returns (r: Result<seq<EntityConfiguration>, Error>)
      modifies this`verifiedBySuperiors, this`verifiedSuperiors
      modifies (set e | e in superiors)`verifiedDescendantStatements
      ensures r.Err? <==> services.validationRaises(sub, Subs(superiors))
      ensures r.Err? ==> unchanged(this) && unchanged(set e | e in superiors)
      ensures r.Ok? ==> Subs(r.value) == VerifiedSubs(services, sub, Subs(superiors))
      ensures r.Ok? ==> forall e :: e in r.value ==> e in superiors
      ensures r.Ok? ==> verifiedBySuperiors == PutAll(old(verifiedBySuperiors), r.value)
      ensures r.Ok? ==> forall s :: s in verifiedSuperiors <==> s in old(verifiedSuperiors) || s in Subs(r.value)
      ensures r.Ok? ==> AllRecorded(services, r.value, sub)
      ensures forall e :: e in superiors ==>
                KeepsOthers(old(e.verifiedDescendantStatements), e.verifiedDescendantStatements, sub)
      ensures forall e :: e in superiors && services.subordinateStatement(e.sub, sub).None? ==>
                e.verifiedDescendantStatements == old(e.verifiedDescendantStatements)
    {
      if services.validationRaises(sub, Subs(superiors)) {
        return Err(SuperiorValidationFailed(sub));
      }
      var verified := RecordVerifiedSuperiors(services, superiors);
      r := Ok(verified);
    }

    /** `validate_by_superiors` with the single candidate `c`, as the
        terminal check of a trust chain calls it with the anchor. Returns
        whether the resulting mapping is not empty, that is whether `c`
        verified this entity. */
    method ValidateBySuperior(services: Services, c: EntityConfiguration) returns (r: Result<bool, Error>)
      modifies this`verifiedBySuperiors, this`verifiedSuperiors, c`verifiedDescendantStatements
      ensures r.Err? <==> services.validationRaises(sub, [c.sub])
      ensures r.Ok? ==> (r.value <==> services.subordinateStatement(c.sub, sub).Some?)
      ensures !(r.Ok? && r.value) ==>
                && verifiedBySuperiors == old(verifiedBySuperiors)
                && verifiedSuperiors == old(verifiedSuperiors)
                && c.verifiedDescendantStatements == old(c.verifiedDescendantStatements)
      ensures r.Ok? && r.value ==>
                && verifiedBySuperiors == PutAll(old(verifiedBySuperiors), [c])
                && verifiedSuperiors == old(verifiedSuperiors) + {c.sub}
                && Recorded(services, c, sub)
                && KeepsOthers(old(c.verifiedDescendantStatements), c.verifiedDescendantStatements, sub)
    {
      assert Subs([c]) == [c.sub];
      ghost var superiors0, subs0 := verifiedBySuperiors, verifiedSuperiors;
      var validated := ValidateBySuperiors(services, [c]);
      if validated.Err? {
        return Err(validated.error);
      }
      SingleCandidate(services, sub, c, validated.value, superiors0, subs0, verifiedBySuperiors, verifiedSuperiors);
      assert c in [c];
      r := Ok(validated.value != []);
    }

    /** One round of the loop of `validate_by_superiors`: records `superior` when the statement it
        issues about this entity verifies. */
    method RecordIfVerified(services: Services, superior: EntityConfiguration,
                            ghost done: seq<EntityConfiguration>, ghost all: seq<EntityConfiguration>,
                            ghost start: map<EntityConfiguration, map<string, Payload>>)
      returns (recorded: bool)
      requires AllRecorded(services, done, sub)
      requires superior in all && DescendantsKept(services, all, start, sub)
      modifies this`verifiedBySuperiors, this`verifiedSuperiors, superior`verifiedDescendantStatements
      ensures recorded <==> services.subordinateStatement(superior.sub, sub).Some?
      ensures recorded ==> verifiedBySuperiors == Put(old(verifiedBySuperiors), superior)
      ensures recorded ==> verifiedSuperiors == old(verifiedSuperiors) + {superior.sub}
      ensures recorded ==> AllRecorded(services, done + [superior], sub)
      ensures !recorded ==> unchanged(this, superior) && AllRecorded(services, done, sub)
      ensures DescendantsKept(services, all, start, sub)
    {
      var statement := services.subordinateStatement(superior.sub, sub);
      recorded := statement.Some?;
      if recorded {
        ghost var before := superior.verifiedDescendantStatements;
        RecordSuperior(superior, statement.value);
        KeepsOthersTrans(start[superior], before, superior.verifiedDescendantStatements, sub);
      }
    }

    /** The state that loop keeps once it has gone through `superiors[..i]`,
        having found `verified`: the superiors that verified this entity so
        far are recorded on both sides, from `superiors0` and `subs0` on this
        side and `start` on theirs. */
    ghost predicate RecordedUpTo(services: Services, superiors: seq<EntityConfiguration>, i: nat,
                                 verified: seq<EntityConfiguration>, superiors0: seq<EntityConfiguration>,
                                 subs0: set<string>, start: map<EntityConfiguration, map<string, Payload>>)
      reads this`verifiedBySuperiors, this`verifiedSuperiors, (set e | e in superiors)`verifiedDescendantStatements
    {
      && i <= |superiors|
      && Subs(verified) == VerifiedSubs(services, sub, Subs(superiors[..i]))
      && (forall e :: e in verified ==> e in superiors)
      && verifiedBySuperiors == PutAll(superiors0, verified)
      && (forall s :: s in verifiedSuperiors <==> s in subs0 || s in Subs(verified))
      && AllRecorded(services, verified, sub)
      && DescendantsKept(services, superiors, start, sub)
    }

    /** One round of that loop, from the state it keeps before
        `superiors[i]` to the state after it. */
    method RecordStep(services: Services, superiors: seq<EntityConfiguration>, i: nat,
                      verified: seq<EntityConfiguration>, ghost superiors0: seq<EntityConfiguration>,
                      ghost subs0: set<string>, ghost start: map<EntityConfiguration, map<string, Payload>>)
      returns (grown: seq<EntityConfiguration>)
      requires i < |superiors|
      requires RecordedUpTo(services, superiors, i, verified, superiors0, subs0, start)
      modifies this`verifiedBySuperiors, this`verifiedSuperiors, {superiors[i]}`verifiedDescendantStatements
      ensures RecordedUpTo(services, superiors, i + 1, grown, superiors0, subs0, start)
    {
      var c := superiors[i];
      VerifiedSubsStep(services, sub, superiors, i);
      var recorded := RecordIfVerified(services, c, verified, superiors, start);
      grown := verified;
      if recorded {
        SubsAppend(verified, c);
        PutAllAppend(superiors0, verified, c);
        grown := verified + [c];
      }
    }

    /** The loop of `validate_by_superiors` once it does not raise. */
    method RecordVerifiedSuperiors(services: Services, superiors: seq<EntityConfiguration>)
      returns (verified: seq<EntityConfiguration>)
      modifies this`verifiedBySuperiors, this`verifiedSuperiors
      modifies (set e | e in superiors)`verifiedDescendantStatements
      ensures Subs(verified) == VerifiedSubs(services, sub, Subs(superiors))
      ensures forall e :: e in verified ==> e in superiors
      ensures verifiedBySuperiors == PutAll(old(verifiedBySuperiors), verified)
      ensures forall s :: s in verifiedSuperiors <==> s in old(verifiedSuperiors) || s in Subs(verified)
      ensures AllRecorded(services, verified, sub)
      ensures forall e :: e in superiors ==>
                KeepsOthers(old(e.verifiedDescendantStatements), e.verifiedDescendantStatements, sub)
      ensures forall e :: e in superiors && services.subordinateStatement(e.sub, sub).None? ==>
                e.verifiedDescendantStatements == old(e.verifiedDescendantStatements)
    {
      ghost var start: map<EntityConfiguration, map<string, Payload>> :=
        map e | e in superiors :: e.verifiedDescendantStatements;
      ghost var superiors0, subs0 := verifiedBySuperiors, verifiedSuperiors;
      verified := [];
      for i := 0 to |superiors|
        invariant RecordedUpTo(services, superiors, i, verified, superiors0, subs0, start)
      {
        verified := RecordStep(services, superiors, i, verified, superiors0, subs0, start);
      }
      assert superiors[..|superiors|] == superiors;
      forall e | e in superiors
        ensures KeepsOthers(old(e.verifiedDescendantStatements), e.verifiedDescendantStatements, sub)
        ensures services.subordinateStatement(e.sub, sub).None? ==>
                  e.verifiedDescendantStatements == old(e.verifiedDescendantStatements)
      {
        assert start[e] == old(e.verifiedDescendantStatements);
      }
    }
  }

  /** `e` is the configuration `e.sub` publishes, as a fetch returns it,
      and has recorded no superior yet. */
  ghost predicate FreshlyFetched(services: Services, e: EntityConfiguration)
    reads e`verifiedBySuperiors, e`verifiedSuperiors
  {
    && services.entityConfiguration(e.sub) == Some(e.payload)
    && e.verifiedBySuperiors == []
    && e.verifiedSuperiors == {}
  }

  /** `superior` holds the statement it issues about `s` among its verified
      descendant statements. */
  ghost predicate Recorded(services: Services, superior: EntityConfiguration, s: string)
    reads superior`verifiedDescendantStatements
  {
    && s in superior.verifiedDescendantStatements
    && services.subordinateStatement(superior.sub, s) == Some(superior.verifiedDescendantStatements[s])
  }

  /** `m` agrees with `m0` on every key other than `s`. */
  ghost predicate KeepsOthers(m0: map<string, Payload>, m: map<string, Payload>, s: string)
  {
    forall k :: k != s ==> (k in m <==> k in m0) && (k in m ==> m[k] == m0[k])
  }

  /** Each configuration `e` of `all` has changed its descendant statements
      since they were `start[e]` at most under the key `s`, and not at all
      unless its statement about `s` verifies. */
  ghost predicate DescendantsKept(services: Services, all: seq<EntityConfiguration>,
                                  start: map<EntityConfiguration, map<string, Payload>>, s: string)
    reads (set e | e in all)`verifiedDescendantStatements
  {
    forall e :: e in all ==>
      && e in start
      && KeepsOthers(start[e], e.verifiedDescendantStatements, s)
      && (services.subordinateStatement(e.sub, s).None? ==> e.verifiedDescendantStatements == start[e])
  }

  lemma KeepsOthersTrans(m0: map<string, Payload>, m1: map<string, Payload>, m2: map<string, Payload>, s: string)
    requires KeepsOthers(m0, m1, s) && KeepsOthers(m1, m2, s)
    ensures KeepsOthers(m0, m2, s)
  {
  }

  /** Every configuration of `superiors` holds its statement about `s`. */
  ghost predicate AllRecorded(services: Services, superiors: seq<EntityConfiguration>, s: string)
    reads (set e | e in superiors)`verifiedDescendantStatements
  {
    forall e :: e in superiors ==> Recorded(services, e, s)
  }

  /** One step of `VerifiedSubs`, as the loop of `ValidateBySuperiors` takes it. */
  lemma VerifiedSubsStep(services: Services, sub: string, superiors: seq<EntityConfiguration>, i: nat)
    requires i < |superiors|
    ensures VerifiedSubs(services, sub, Subs(superiors[..i + 1]))
            == VerifiedSubs(services, sub, Subs(superiors[..i]))
               + (if services.subordinateStatement(superiors[i].sub, sub).Some? then [superiors[i].sub] else [])
  {
    assert superiors[..i + 1] == superiors[..i] + [superiors[i]];
    SubsAppend(superiors[..i], superiors[i]);
    assert Subs(superiors[..i + 1])[..i] == Subs(superiors[..i]);
  }
}
