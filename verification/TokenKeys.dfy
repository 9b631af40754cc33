/** `Verify` on top of `keyFor` (internal/configd/oidc.go): an accepted token is signed by a key its issuer served. */
module TokenKeys {
  import opened Text
  import opened KeyCache
  import opened TokenBroker

  /** Every key `keyFor` answers is one that a call of the run returned for the same issuer and kid. */
  ghost predicate Answers(served: Served, steps: seq<Step>, keyFor: (string, string) -> Option<nat>) {
    forall issuer, kid :: keyFor(issuer, kid).Some? ==>
      exists id: nat :: ReturnedBy(served, steps, id, issuer, kid, keyFor(issuer, kid).value)
  }

  ghost predicate ReturnedBy(served: Served, steps: seq<Step>, id: nat, issuer: string, kid: string, key: nat) {
    Run(served, INITIAL, steps).Some? &&
    match Get(Run(served, INITIAL, steps).value, id)
    case Some(Returned(i, k, _, returned, _, _)) => i == issuer && k == kid && returned == key
    case _ => false
  }

  /** The key was in the issuer's own document at the moment. */
  ghost predicate ServedAt(served: Served, issuer: string, kid: string, key: nat, moment: nat) {
    kid in served(issuer, moment) && served(issuer, moment)[kid] == key
  }

  /** The signature of the token holds under the key, for the header with this kid and these claims. */
  ghost predicate SignedUnder(codec: Codec, token: string, claims: Claims, kid: string, key: nat) {
    SignedBy(codec, (issuer, k) => if issuer == claims.issuer && k == kid then Some(key) else None, token, claims)
  }

  /**
   * A token is accepted, under any interleaving of the calls that look keys up, only with a key that the issuer the
   * token names served itself, less than an hour and the duration of one fetch before the call `id` returned it.
   */
  lemma AcceptedIsSignedByIssuer(
    served: Served, steps: seq<Step>, codec: Codec, keyFor: (string, string) -> Option<nat>,
    token: string, allowed: set<string>, now: int, claims: Claims)
    returns (id: nat, kid: string, key: nat, moment: nat)
    requires Answers(served, steps, keyFor)
    requires Verify(codec, keyFor, token, allowed, now) == Some(claims)
    ensures claims.issuer in allowed && now < claims.expiry
    ensures SignedUnder(codec, token, claims, kid, key) && ServedAt(served, claims.issuer, kid, key, moment)
    ensures ReturnedBy(served, steps, id, claims.issuer, kid, key)
    ensures var c := Get(Run(served, INITIAL, steps).value, id).value;
            && c.entry.Some? && moment <= c.at
            && c.at - moment < 3_600_000_000_000 + (c.entry.value.fetched - c.entry.value.started)
  {
    VerifyExactly(codec, keyFor, token, allowed, now, claims);
    var head, body, tail :| token == head + "." + body + "." + tail && '.' !in head && '.' !in body && '.' !in tail
                            && SignedParts(codec, keyFor, head, body, tail, claims);
    kid := Bind(codec.base64(head), codec.header).value.kid;
    key := keyFor(claims.issuer, kid).value;
    id :| ReturnedBy(served, steps, id, claims.issuer, kid, key);
    moment := ReturnedKeyIsRecent(served, steps, id);
    var only := (issuer, k) => if issuer == claims.issuer && k == kid then Some(key) else None;
    assert SignedParts(codec, only, head, body, tail, claims);
  }
}
