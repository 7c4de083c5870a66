/** The layered tree of trust that discovery builds, stated over entity
    subjects: layer 0 is the subject, and each further layer is, in order,
    what every entity of the layer before contributes, that is the superiors
    `get_superiors` returns for it whose statement about it verifies. An
    entity whose `get_superiors` or `validate_by_superiors` raises
    contributes nothing. */
module TrustTree {
  import opened Wrappers
  import opened Statements

  /** The subjects entity `sub` adds to the next layer. */
  function Contribution(services: Services, sub: string, maxAuthorityHints: int,
                        hintSubs: seq<string>): seq<string>
  {
    match SuperiorsOf(services, sub, maxAuthorityHints, hintSubs)
    case None => []
    case Some(candidates) =>
      if services.validationRaises(sub, candidates) then [] else VerifiedSubs(services, sub, candidates)
  }

  /** The layer after `layer`: the contributions of its entities, in order. */
  function NextLayer(services: Services, layer: seq<string>, maxAuthorityHints: int,
                     hintSubs: seq<string>): seq<string>
    decreases |layer|
  {
    if layer == [] then []
    else
      NextLayer(services, layer[..|layer| - 1], maxAuthorityHints, hintSubs)
        + Contribution(services, layer[|layer| - 1], maxAuthorityHints, hintSubs)
  }

  /** The tree of trust with `depth + 1` layers, rooted at `subject`. */
  function Tree(services: Services, subject: string, maxAuthorityHints: int,
                hintSubs: seq<string>, depth: nat): (t: seq<seq<string>>)
    ensures |t| == depth + 1 && t[0] == [subject]
    ensures forall k :: 0 <= k < depth ==> t[k + 1] == NextLayer(services, t[k], maxAuthorityHints, hintSubs)
  {
    if depth == 0 then [[subject]]
    else
      var t := Tree(services, subject, maxAuthorityHints, hintSubs, depth - 1);
      t + [NextLayer(services, t[depth - 1], maxAuthorityHints, hintSubs)]
  }

  /** `superior` is among the superiors `get_superiors` returns for `sub`,
      `validate_by_superiors` does not raise for `sub`, and `superior`'s
      statement about `sub` verifies. */
  ghost predicate VerifiedSuperior(services: Services, sub: string, superior: string,
                                   maxAuthorityHints: int, hintSubs: seq<string>)
  {
    && SuperiorsOf(services, sub, maxAuthorityHints, hintSubs).Some?
    && superior in SuperiorsOf(services, sub, maxAuthorityHints, hintSubs).value
    && !services.validationRaises(sub, SuperiorsOf(services, sub, maxAuthorityHints, hintSubs).value)
    && services.subordinateStatement(superior, sub).Some?
  }

  /** Building the next layer distributes over concatenation: entities of a
      layer contribute independently of one another. */
  lemma {:induction false} NextLayerConcat(services: Services, a: seq<string>, b: seq<string>,
                                           maxAuthorityHints: int, hintSubs: seq<string>)
    ensures NextLayer(services, a + b, maxAuthorityHints, hintSubs)
            == NextLayer(services, a, maxAuthorityHints, hintSubs) + NextLayer(services, b, maxAuthorityHints, hintSubs)
    decreases |b|
  {
    if b == [] {
      assert a + b == a;
    } else {
      var front := b[..|b| - 1];
      var last := b[|b| - 1];
      var c := Contribution(services, last, maxAuthorityHints, hintSubs);
      assert (a + b)[..|a + b| - 1] == a + front;
      assert (a + b)[|a + b| - 1] == last;
      NextLayerConcat(services, a, front, maxAuthorityHints, hintSubs);
      var x := NextLayer(services, a, maxAuthorityHints, hintSubs);
      var y := NextLayer(services, front, maxAuthorityHints, hintSubs);
      assert NextLayer(services, a + b, maxAuthorityHints, hintSubs) == (x + y) + c;
      assert NextLayer(services, b, maxAuthorityHints, hintSubs) == y + c;
      ConcatAssoc(x, y, c);
    }
  }

  /** An entity whose `get_superiors` or `validate_by_superiors` raises adds
      nothing, and the entities around it contribute as if it were absent. */
  lemma FailingEntityContributesNothing(services: Services, a: seq<string>, s: string, b: seq<string>,
                                        maxAuthorityHints: int, hintSubs: seq<string>)
    requires || SuperiorsOf(services, s, maxAuthorityHints, hintSubs).None?
             || services.validationRaises(s, SuperiorsOf(services, s, maxAuthorityHints, hintSubs).value)
    ensures NextLayer(services, a + [s] + b, maxAuthorityHints, hintSubs)
            == NextLayer(services, a + b, maxAuthorityHints, hintSubs)
  {
    var x := NextLayer(services, a, maxAuthorityHints, hintSubs);
    var y := NextLayer(services, b, maxAuthorityHints, hintSubs);
    assert [s][..0] == [];
    assert NextLayer(services, [s], maxAuthorityHints, hintSubs) == [];
    NextLayerConcat(services, a, [s], maxAuthorityHints, hintSubs);
    assert NextLayer(services, a + [s], maxAuthorityHints, hintSubs) == x + [];
    assert x + [] == x;
    NextLayerConcat(services, a + [s], b, maxAuthorityHints, hintSubs);
    NextLayerConcat(services, a, b, maxAuthorityHints, hintSubs);
  }

  /** A subject is in the next layer exactly when it is a verified superior
      of some entity of the layer. */
  lemma {:induction false} NextLayerMembers(services: Services, layer: seq<string>, x: string,
                                            maxAuthorityHints: int, hintSubs: seq<string>)
    ensures x in NextLayer(services, layer, maxAuthorityHints, hintSubs)
            <==> exists y :: y in layer && VerifiedSuperior(services, y, x, maxAuthorityHints, hintSubs)
    decreases |layer|
  {
    if layer != [] {
      var front := layer[..|layer| - 1];
      var last := layer[|layer| - 1];
      assert layer == front + [last];
      NextLayerMembers(services, front, x, maxAuthorityHints, hintSubs);
      assert x in Contribution(services, last, maxAuthorityHints, hintSubs)
             <==> VerifiedSuperior(services, last, x, maxAuthorityHints, hintSubs);
      if exists y :: y in layer && VerifiedSuperior(services, y, x, maxAuthorityHints, hintSubs) {
        var y :| y in layer && VerifiedSuperior(services, y, x, maxAuthorityHints, hintSubs);
        if y != last {
          assert y in front;
        }
      }
    }
  }

  /** `chain` leads from its first subject upwards, each subject a verified
      superior of the one before it. */
  ghost predicate SuperiorChain(services: Services, chain: seq<string>, maxAuthorityHints: int,
                                hintSubs: seq<string>)
  {
    forall i :: 0 <= i < |chain| - 1 ==> VerifiedSuperior(services, chain[i], chain[i + 1], maxAuthorityHints, hintSubs)
  }

  /** Every entity in layer `k` of the tree is reached from the subject by a
      chain of `k` verified subordinate statements; `chain` is that chain. */
  lemma {:induction false} TreeEntitiesChainToSubject(services: Services, subject: string, maxAuthorityHints: int,
                                                      hintSubs: seq<string>, depth: nat, k: nat, x: string)
    returns (chain: seq<string>)
    requires k <= depth && x in Tree(services, subject, maxAuthorityHints, hintSubs, depth)[k]
    ensures |chain| == k + 1 && chain[0] == subject && chain[k] == x
    ensures SuperiorChain(services, chain, maxAuthorityHints, hintSubs)
    decreases k
  {
    var t := Tree(services, subject, maxAuthorityHints, hintSubs, depth);
    if k == 0 {
      assert x == subject;
      chain := [x];
      assert SuperiorChain(services, chain, maxAuthorityHints, hintSubs);
    } else {
      assert t[k] == NextLayer(services, t[k - 1], maxAuthorityHints, hintSubs);
      NextLayerMembers(services, t[k - 1], x, maxAuthorityHints, hintSubs);
      var y :| y in t[k - 1] && VerifiedSuperior(services, y, x, maxAuthorityHints, hintSubs);
      var front := TreeEntitiesChainToSubject(services, subject, maxAuthorityHints, hintSubs, depth, k - 1, y);
      ExtendChain(services, front, x, maxAuthorityHints, hintSubs);
      chain := front + [x];
      assert chain[0] == front[0] && chain[k] == x;
    }
  }

  /** A chain ending at `y` extends by any verified superior of `y`. */
  lemma ExtendChain(services: Services, chain: seq<string>, x: string,
                    maxAuthorityHints: int, hintSubs: seq<string>)
    requires |chain| >= 1 && SuperiorChain(services, chain, maxAuthorityHints, hintSubs)
    requires VerifiedSuperior(services, chain[|chain| - 1], x, maxAuthorityHints, hintSubs)
    ensures SuperiorChain(services, chain + [x], maxAuthorityHints, hintSubs)
  {
    var longer := chain + [x];
    forall i | 0 <= i < |longer| - 1
      ensures VerifiedSuperior(services, longer[i], longer[i + 1], maxAuthorityHints, hintSubs)
    {
      if i < |chain| - 1 {
        assert longer[i] == chain[i] && longer[i + 1] == chain[i + 1];
      }
    }
  }

  /** A deeper walk only adds layers: the first layers do not depend on the
      depth bound. */
  lemma {:induction false} TreePrefix(services: Services, subject: string, maxAuthorityHints: int,
                                      hintSubs: seq<string>, m: nat, n: nat)
    requires m <= n
    ensures Tree(services, subject, maxAuthorityHints, hintSubs, m)
            == Tree(services, subject, maxAuthorityHints, hintSubs, n)[..m + 1]
    decreases n
  {
    if m < n {
      TreePrefix(services, subject, maxAuthorityHints, hintSubs, m, n - 1);
      var t := Tree(services, subject, maxAuthorityHints, hintSubs, n - 1);
      assert Tree(services, subject, maxAuthorityHints, hintSubs, n)[..n] == t;
      assert t[..m + 1] == Tree(services, subject, maxAuthorityHints, hintSubs, n)[..m + 1];
    } else {
      assert Tree(services, subject, maxAuthorityHints, hintSubs, n)[..n + 1]
             == Tree(services, subject, maxAuthorityHints, hintSubs, n);
    }
  }

  /** From layer `from` on, each layer is the next layer of the one before. */
  ghost predicate Layered(services: Services, layers: seq<seq<string>>, from: int,
                          maxAuthorityHints: int, hintSubs: seq<string>)
  {
    forall k :: from <= k < |layers| - 1 && 0 <= k ==>
      layers[k + 1] == NextLayer(services, layers[k], maxAuthorityHints, hintSubs)
  }

  /** Appending the next layer of the last one keeps a layering. */
  lemma LayeredAppend(services: Services, layers: seq<seq<string>>, next: seq<string>, from: int,
                      maxAuthorityHints: int, hintSubs: seq<string>)
    requires |layers| >= 1 && Layered(services, layers, from, maxAuthorityHints, hintSubs)
    requires next == NextLayer(services, layers[|layers| - 1], maxAuthorityHints, hintSubs)
    ensures Layered(services, layers + [next], from, maxAuthorityHints, hintSubs)
  {
    var t := layers + [next];
    forall k | from <= k < |t| - 1 && 0 <= k
      ensures t[k + 1] == NextLayer(services, t[k], maxAuthorityHints, hintSubs)
    {
      if k < |layers| - 1 {
        assert t[k] == layers[k] && t[k + 1] == layers[k + 1];
      }
    }
  }

  /** The tree is the only layering rooted at the subject in which every
      layer is the next layer of the one before. */
  lemma {:induction false} TreeUnique(services: Services, subject: string, maxAuthorityHints: int,
                                      hintSubs: seq<string>, t: seq<seq<string>>)
    requires |t| >= 1 && t[0] == [subject]
    requires Layered(services, t, 0, maxAuthorityHints, hintSubs)
    ensures t == Tree(services, subject, maxAuthorityHints, hintSubs, |t| - 1)
    decreases |t|
  {
    if |t| > 1 {
      var front := t[..|t| - 1];
      TreeUnique(services, subject, maxAuthorityHints, hintSubs, front);
      assert t == front + [t[|t| - 1]];
    }
  }
}
