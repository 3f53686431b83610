/** Who signed an accepted chain (pkg/verify/verify.go with the key ring of pkg/jose/jose.go). */
module Authenticity {
  import opened Mda
  import opened Jose
  import opened Verify
  import opened Chains

  /** A verifier that resolves keys in a ring. */
  ghost predicate UsesRing(v: Verifier, pr: Primitives, keys: map<string, Key>) {
    forall issuer, compact :: v.sigs(issuer, compact) <==> RingVerifies(pr, keys, issuer, compact)
  }

  /**
   If signatures cannot be forged, the holder of a key filed for each link's issuer signed that
   link's header and payload: the sponsor's authority the first, and below it the subject of
   the link above.
   */
  lemma AcceptedChainIsSigned(v: Verifier, pr: Primitives, keys: map<string, Key>, signed: (Key, string) -> bool,
                              raws: seq<string>, i: nat)
    requires pr.Unforgeable(signed) && UsesRing(v, pr, keys)
    requires Verdict(v, raws).Ok? && i < |raws|
    ensures var links := LinksOf(v, raws);
            && (i > 0 ==> links[i].issuer == links[i - 1].subject)
            && exists input, last :: raws[i] == input + "." + last && '.' !in last && HolderSigned(keys, signed, links[i].issuer, input)
  {
    var links := LinksOf(v, raws);
    assert v.sigs(links[i].issuer, raws[i]);
    RingAcceptsOnlyTheHolder(pr, keys, signed, links[i].issuer, raws[i]);
  }
}
