/** The bounded walk from a certificate up its issuers (`desktopCertificateChainIsActive`). */
module CertificateChain {
  import opened Common

  type Cert = seq<Byte>

  datatype Claims = Claims(identityId: string, homeId: string, generation: int, publicKey: seq<Byte>)

  /** The issuer field is empty, undecodable, or names the next certificate. */
  datatype Issuer = Root | Garbled | IssuedBy(cert: Cert)

  datatype Envelope = Envelope(claims: Claims, issuer: Issuer)

  datatype Identity = Identity(
    id: string,
    homeId: string,
    generation: int,
    revoked: bool,
    expiresAt: int,
    certificate: Cert,
    publicKey: seq<Byte>)

  /** Decoding is a partial function that the model takes as given. */
  datatype Trust = Trust(decode: Cert -> Option<Envelope>, homeId: string, generation: int, identities: seq<Identity>)

  const MAX_BLOB := 65536
  const MAX_CHAIN := 9

  predicate Vouches(i: Identity, t: Trust, cert: Cert, claims: Claims, now: int)
  {
    && i.id == claims.identityId && i.homeId == t.homeId && i.generation == t.generation
    && !i.revoked && i.expiresAt > now
    && i.certificate == cert && i.publicKey == claims.publicKey
  }

  /** The certificate taken alone: well-formed, of this home and generation, and stored unrevoked and unexpired. */
  predicate Active(t: Trust, cert: Cert, now: int)
  {
    && 0 < |cert| <= MAX_BLOB
    && t.decode(cert).Some?
    && (var claims := t.decode(cert).value.claims;
        && claims.homeId == t.homeId && claims.generation == t.generation
        && exists i <- t.identities :: Vouches(i, t, cert, claims, now))
  }

  function IdOf(t: Trust, cert: Cert): string
  {
    if t.decode(cert).Some? then t.decode(cert).value.claims.identityId else ""
  }

  ghost function Ids(t: Trust, certs: seq<Cert>): set<string>
  {
    set c <- certs :: IdOf(t, c)
  }

  /** A complete chain: active links, each issued by the next, no identity twice, ending in a root. */
  ghost predicate IsChain(t: Trust, chain: seq<Cert>, now: int)
  {
    && 1 <= |chain| <= MAX_CHAIN
    && (forall k :: 0 <= k < |chain| ==> Active(t, chain[k], now))
    && (forall k :: 0 <= k < |chain| - 1 ==> t.decode(chain[k]).value.issuer == IssuedBy(chain[k + 1]))
    && t.decode(chain[|chain| - 1]).value.issuer == Root
    && (forall j, k :: 0 <= j < k < |chain| ==> IdOf(t, chain[j]) != IdOf(t, chain[k]))
  }

  ghost predicate Trusted(t: Trust, cert: Cert, now: int)
  {
    exists chain :: IsChain(t, chain, now) && chain[0] == cert
  }

  method FindVoucher(t: Trust, cert: Cert, claims: Claims, now: int) returns (active: bool)
    ensures active <==> exists i <- t.identities :: Vouches(i, t, cert, claims, now)
  {
    active := false;
    for n := 0 to |t.identities|
      invariant !active
      invariant forall k :: 0 <= k < n ==> !Vouches(t.identities[k], t, cert, claims, now)
    {
      var identity := t.identities[n];
      if identity.id == claims.identityId && identity.homeId == t.homeId && identity.generation == t.generation
         && !identity.revoked && identity.expiresAt > now
         && identity.certificate == cert && identity.publicKey == claims.publicKey {
        assert t.identities[n] in t.identities;
        return true;
      }
    }
  }

  /** Every chain from cert that is long enough runs through exactly the certificates walked so far. */
  ghost predicate OnlyWay(t: Trust, cert: Cert, now: int, walked: seq<Cert>, current: Cert)
  {
    forall chain :: IsChain(t, chain, now) && chain[0] == cert ==>
      |walked| < |chain| && chain[..|walked|] == walked && chain[|walked|] == current
  }

  /** The part of a chain below the certificate that the walk looks at now. */
  ghost predicate Walked(t: Trust, cert: Cert, now: int, walked: seq<Cert>, current: Cert)
  {
    var path := walked + [current];
    && path[0] == cert
    && (forall k :: 0 <= k < |walked| ==>
          Active(t, walked[k], now) && t.decode(walked[k]).value.issuer == IssuedBy(path[k + 1]))
    && (forall j, k :: 0 <= j < k < |walked| ==> IdOf(t, walked[j]) != IdOf(t, walked[k]))
  }

  /** What a complete chain says about the certificate the walk has reached. */
  lemma Reached(t: Trust, cert: Cert, now: int, walked: seq<Cert>, current: Cert, chain: seq<Cert>)
    requires OnlyWay(t, cert, now, walked, current) && IsChain(t, chain, now) && chain[0] == cert
    ensures Active(t, current, now) && t.decode(current).value.issuer != Garbled
    ensures forall k :: 0 <= k < |walked| ==> Active(t, walked[k], now) && IdOf(t, walked[k]) != IdOf(t, current)
  {
    var n := |walked|;
    assert chain[n] == current;
    assert n < |chain| - 1 ==> t.decode(chain[n]).value.issuer == IssuedBy(chain[n + 1]);
    assert forall k :: 0 <= k < n ==> chain[..n][k] == chain[k];
  }

  lemma RefusedHere(t: Trust, cert: Cert, now: int, walked: seq<Cert>, current: Cert)
    requires OnlyWay(t, cert, now, walked, current)
    requires !Active(t, current, now) || t.decode(current).value.issuer == Garbled
             || (exists k :: 0 <= k < |walked| && Active(t, walked[k], now) && IdOf(t, walked[k]) == IdOf(t, current))
    ensures !Trusted(t, cert, now)
  {
    if Trusted(t, cert, now) {
      var chain :| IsChain(t, chain, now) && chain[0] == cert;
      Reached(t, cert, now, walked, current, chain);
    }
  }

  lemma AcceptedHere(t: Trust, cert: Cert, now: int, walked: seq<Cert>, current: Cert)
    requires Walked(t, cert, now, walked, current) && |walked| < MAX_CHAIN
    requires Active(t, current, now) && t.decode(current).value.issuer == Root
    requires IdOf(t, current) !in Ids(t, walked)
    ensures Trusted(t, cert, now)
  {
    hide Active;
    assert forall k :: 0 <= k < |walked| ==> walked[k] in walked;
    assert IsChain(t, walked + [current], now);
  }

  lemma OneUp(t: Trust, cert: Cert, now: int, walked: seq<Cert>, current: Cert, next: Cert)
    requires OnlyWay(t, cert, now, walked, current)
    requires t.decode(current).Some? && t.decode(current).value.issuer == IssuedBy(next)
    ensures OnlyWay(t, cert, now, walked + [current], next)
  {
    forall chain | IsChain(t, chain, now) && chain[0] == cert
      ensures |walked| + 1 < |chain| && chain[..|walked| + 1] == walked + [current] && chain[|walked| + 1] == next
    {
      var n := |walked|;
      assert chain[n] == current;
      assert t.decode(chain[|chain| - 1]).value.issuer == Root;
      assert n != |chain| - 1;
      assert t.decode(chain[n]).value.issuer == IssuedBy(chain[n + 1]);
      assert chain[..n + 1] == chain[..n] + [chain[n]];
    }
  }

  lemma StepUp(t: Trust, cert: Cert, now: int, walked: seq<Cert>, current: Cert, next: Cert)
    requires Walked(t, cert, now, walked, current) && Active(t, current, now)
    requires t.decode(current).value.issuer == IssuedBy(next)
    requires IdOf(t, current) !in Ids(t, walked)
    ensures Walked(t, cert, now, walked + [current], next)
  {
    LinksUp(t, cert, now, walked, current, next);
    DistinctUp(t, walked, current);
    hide Active, IdOf, Ids;
  }

  lemma LinksUp(t: Trust, cert: Cert, now: int, walked: seq<Cert>, current: Cert, next: Cert)
    requires Walked(t, cert, now, walked, current) && Active(t, current, now)
    requires t.decode(current).value.issuer == IssuedBy(next)
    ensures var w := walked + [current];
            var path := w + [next];
            && path[0] == cert
            && forall k :: 0 <= k < |w| ==> Active(t, w[k], now) && t.decode(w[k]).value.issuer == IssuedBy(path[k + 1])
  {
    hide IdOf;
    var w := walked + [current];
    var path := w + [next];
    forall k | 0 <= k < |w| ensures Active(t, w[k], now) && t.decode(w[k]).value.issuer == IssuedBy(path[k + 1]) {
      if k < |walked| {
        assert w[k] == walked[k] && path[k + 1] == w[k + 1];
      }
    }
  }

  lemma DistinctUp(t: Trust, walked: seq<Cert>, current: Cert)
    requires forall j, k :: 0 <= j < k < |walked| ==> IdOf(t, walked[j]) != IdOf(t, walked[k])
    requires IdOf(t, current) !in Ids(t, walked)
    ensures var w := walked + [current];
            forall j, k :: 0 <= j < k < |w| ==> IdOf(t, w[j]) != IdOf(t, w[k])
  {
    hide IdOf;
    forall k | 0 <= k < |walked| ensures IdOf(t, walked[k]) != IdOf(t, current) {
      assert walked[k] in walked;
    }
  }

  lemma IdsAppend(t: Trust, walked: seq<Cert>, current: Cert)
    ensures Ids(t, walked + [current]) == Ids(t, walked) + {IdOf(t, current)}
  {
    assert forall c :: c in walked + [current] <==> c in walked || c == current;
  }

  lemma Begin(t: Trust, cert: Cert, now: int)
    ensures Walked(t, cert, now, [], cert) && OnlyWay(t, cert, now, [], cert)
  {
  }

  lemma TooLong(t: Trust, cert: Cert, now: int, walked: seq<Cert>, current: Cert)
    requires OnlyWay(t, cert, now, walked, current) && |walked| == MAX_CHAIN
    ensures !Trusted(t, cert, now)
  {
  }

  lemma SeenBefore(t: Trust, cert: Cert, now: int, walked: seq<Cert>, current: Cert)
    requires OnlyWay(t, cert, now, walked, current) && Walked(t, cert, now, walked, current)
    requires IdOf(t, current) in Ids(t, walked)
    ensures !Trusted(t, cert, now)
  {
    var c :| c in walked && IdOf(t, c) == IdOf(t, current);
    var k :| 0 <= k < |walked| && walked[k] == c;
    RefusedHere(t, cert, now, walked, current);
  }

  /** The walk of at most nine certificates decides exactly whether a complete chain exists. */
  method ChainIsActive(t: Trust, certificate: Cert, now: int) returns (ok: bool)
    ensures ok <==> Trusted(t, certificate, now)
  {
    hide Walked, OnlyWay, Trusted, Ids;
    var current := certificate;
    var seen: set<string> := {};
    ghost var walked: seq<Cert> := [];
    Begin(t, certificate, now);
    assert Ids(t, walked) == {} by { NoIds(t); }
    var depth := 0;
    while depth <= 8
      invariant 0 <= depth <= 9 && |walked| == depth
      invariant Walked(t, certificate, now, walked, current)
      invariant OnlyWay(t, certificate, now, walked, current)
      invariant seen == Ids(t, walked)
    {
      if |current| == 0 || |current| > MAX_BLOB || t.decode(current).None? {
        RefusedHere(t, certificate, now, walked, current);
        return false;
      }
      var envelope := t.decode(current).value;
      var claims := envelope.claims;
      if claims.homeId != t.homeId || claims.generation != t.generation {
        RefusedHere(t, certificate, now, walked, current);
        return false;
      }
      if claims.identityId in seen {
        SeenBefore(t, certificate, now, walked, current);
        return false;
      }
      seen := seen + {claims.identityId};
      var active := FindVoucher(t, current, claims, now);
      if !active {
        RefusedHere(t, certificate, now, walked, current);
        return false;
      }
      if envelope.issuer == Root {
        AcceptedHere(t, certificate, now, walked, current);
        return true;
      }
      if envelope.issuer == Garbled {
        RefusedHere(t, certificate, now, walked, current);
        return false;
      }
      OneUp(t, certificate, now, walked, current, envelope.issuer.cert);
      StepUp(t, certificate, now, walked, current, envelope.issuer.cert);
      IdsAppend(t, walked, current);
      walked := walked + [current];
      current := envelope.issuer.cert;
      depth := depth + 1;
    }
    TooLong(t, certificate, now, walked, current);
    return false;
  }

  lemma NoIds(t: Trust)
    ensures Ids(t, []) == {}
  {
  }

  // ---- Revocation and time ----

  function Revoke(identities: seq<Identity>, id: string): (r: seq<Identity>)
    ensures |r| == |identities|
    ensures forall k :: 0 <= k < |r| ==>
              r[k] == if identities[k].id == id then identities[k].(revoked := true) else identities[k]
  {
    seq(|identities|, k requires 0 <= k < |identities| =>
      if identities[k].id == id then identities[k].(revoked := true) else identities[k])
  }

  lemma FewerActive(t: Trust, t': Trust, cert: Cert, now: int, id: string)
    requires t' == t.(identities := Revoke(t.identities, id)) && Active(t', cert, now)
    ensures Active(t, cert, now) && IdOf(t, cert) != id
  {
    var claims := t.decode(cert).value.claims;
    var i :| i in t'.identities && Vouches(i, t', cert, claims, now);
    var k :| 0 <= k < |t'.identities| && t'.identities[k] == i;
    assert t.identities[k] in t.identities && Vouches(t.identities[k], t, cert, claims, now);
  }

  /** There is only one chain above a certificate, so "the" chain is well defined. */
  lemma {:induction false} ChainIsUnique(t: Trust, a: seq<Cert>, b: seq<Cert>, now: int, n: nat)
    requires IsChain(t, a, now) && IsChain(t, b, now) && a[0] == b[0] && n < |a|
    ensures n < |b| && a[n] == b[n]
    ensures n == |a| - 1 ==> |b| == |a|
  {
    if n > 0 {
      ChainIsUnique(t, a, b, now, n - 1);
      assert t.decode(a[n - 1]).value.issuer == IssuedBy(a[n]);
      assert t.decode(b[|b| - 1]).value.issuer == Root;
      assert n - 1 != |b| - 1;
      assert t.decode(b[n - 1]).value.issuer == IssuedBy(b[n]);
    }
    assert n < |b| - 1 ==> t.decode(b[n]).value.issuer == IssuedBy(b[n + 1]);
  }

  /** Revoking any identity on a certificate's chain leaves the certificate without trust. */
  lemma RevocationReachesBelow(t: Trust, chain: seq<Cert>, now: int, k: nat)
    requires IsChain(t, chain, now) && k < |chain|
    ensures !Trusted(t.(identities := Revoke(t.identities, IdOf(t, chain[k]))), chain[0], now)
  {
    var id := IdOf(t, chain[k]);
    var t' := t.(identities := Revoke(t.identities, id));
    forall other | IsChain(t', other, now) && other[0] == chain[0] ensures false {
      forall j | 0 <= j < |other| ensures Active(t, other[j], now) && IdOf(t, other[j]) != id {
        FewerActive(t, t', other[j], now, id);
      }
      assert IsChain(t, other, now);
      ChainIsUnique(t, chain, other, now, k);
    }
  }

  /** Trust only fades: whatever is trusted now was trusted at every earlier time. */
  lemma TrustedEarlier(t: Trust, cert: Cert, now: int, before: int)
    requires Trusted(t, cert, now) && before <= now
    ensures Trusted(t, cert, before)
  {
    var chain :| IsChain(t, chain, now) && chain[0] == cert;
    IsChainEarlier(t, chain, now, before);
  }

  /**
   * What a trusted certificate has behind it: a size within bounds, claims of this home and generation, and a
   * stored identity that bears its id, its public key and the certificate itself, unrevoked and unexpired.
   */
  lemma TrustNeedsIdentity(t: Trust, cert: Cert, now: int)
    requires Trusted(t, cert, now)
    ensures 1 <= |cert| <= 65536 && t.decode(cert).Some?
    ensures var c := t.decode(cert).value.claims;
            && c.homeId == t.homeId && c.generation == t.generation
            && exists i <- t.identities ::
                 && i.id == c.identityId && i.publicKey == c.publicKey && i.certificate == cert
                 && i.homeId == t.homeId && i.generation == t.generation && !i.revoked && now < i.expiresAt
  {
    var chain :| IsChain(t, chain, now) && chain[0] == cert;
    assert Active(t, chain[0], now);
    var i :| i in t.identities && Vouches(i, t, cert, t.decode(cert).value.claims, now);
  }

  /** A certificate that such an identity stands behind, and that names no issuer, is trusted. */
  lemma RootIsTrusted(t: Trust, cert: Cert, now: int, i: Identity)
    requires 1 <= |cert| <= 65536 && t.decode(cert).Some? && t.decode(cert).value.issuer == Root && i in t.identities
    requires var c := t.decode(cert).value.claims;
             && c.homeId == t.homeId && c.generation == t.generation && i.id == c.identityId
             && i.publicKey == c.publicKey && i.certificate == cert && i.homeId == t.homeId
             && i.generation == t.generation && !i.revoked && now < i.expiresAt
    ensures Trusted(t, cert, now)
  {
    assert Vouches(i, t, cert, t.decode(cert).value.claims, now);
    assert IsChain(t, [cert], now);
  }

  /** Trust lasts exactly as long as every link of the chain has a voucher that has not expired. */
  lemma TrustedUntil(t: Trust, chain: seq<Cert>, before: int, now: int)
    requires IsChain(t, chain, before) && before <= now
    ensures Trusted(t, chain[0], now) <==>
              forall k :: 0 <= k < |chain| ==>
                exists i <- t.identities ::
                  Vouches(i, t, chain[k], t.decode(chain[k]).value.claims, before) && now < i.expiresAt
  {
    if Trusted(t, chain[0], now) {
      var other :| IsChain(t, other, now) && other[0] == chain[0];
      IsChainEarlier(t, other, now, before);
      forall k | 0 <= k < |chain|
        ensures exists i <- t.identities ::
                  Vouches(i, t, chain[k], t.decode(chain[k]).value.claims, before) && now < i.expiresAt
      {
        ChainIsUnique(t, chain, other, before, k);
        assert Active(t, other[k], now);
        var i :| i in t.identities && Vouches(i, t, other[k], t.decode(other[k]).value.claims, now);
        assert Vouches(i, t, chain[k], t.decode(chain[k]).value.claims, before) && now < i.expiresAt;
      }
    }
    if forall k :: 0 <= k < |chain| ==>
         exists i <- t.identities ::
           Vouches(i, t, chain[k], t.decode(chain[k]).value.claims, before) && now < i.expiresAt
    {
      forall k | 0 <= k < |chain| ensures Active(t, chain[k], now) {
        assert Active(t, chain[k], before);
        var i :| i in t.identities
               && Vouches(i, t, chain[k], t.decode(chain[k]).value.claims, before) && now < i.expiresAt;
        assert Vouches(i, t, chain[k], t.decode(chain[k]).value.claims, now);
      }
      assert IsChain(t, chain, now);
    }
  }

  lemma IsChainEarlier(t: Trust, chain: seq<Cert>, now: int, before: int)
    requires IsChain(t, chain, now) && before <= now
    ensures IsChain(t, chain, before)
  {
    forall k | 0 <= k < |chain| ensures Active(t, chain[k], before) {
      assert Active(t, chain[k], now);
      var claims := t.decode(chain[k]).value.claims;
      var i :| i in t.identities && Vouches(i, t, chain[k], claims, now);
      assert Vouches(i, t, chain[k], claims, before);
    }
  }

  lemma {:induction false} FollowsIssuers(t: Trust, certs: seq<Cert>, chain: seq<Cert>, now: int, n: nat)
    requires IsChain(t, chain, now) && certs != [] && chain[0] == certs[0] && n < |certs|
    requires forall k :: 0 <= k < |certs| - 1 ==>
               t.decode(certs[k]).Some? && t.decode(certs[k]).value.issuer == IssuedBy(certs[k + 1])
    ensures n < |chain| && chain[n] == certs[n]
  {
    if n > 0 {
      FollowsIssuers(t, certs, chain, now, n - 1);
      assert t.decode(certs[n - 1]).value.issuer == IssuedBy(certs[n]);
      assert t.decode(chain[|chain| - 1]).value.issuer == Root;
      assert n - 1 != |chain| - 1;
      assert t.decode(chain[n - 1]).value.issuer == IssuedBy(chain[n]);
    }
  }

  /** Ten certificates in a row are too many, whatever stands behind them. */
  lemma TenAreTooMany(t: Trust, certs: seq<Cert>, now: int)
    requires |certs| == 10
    requires forall k :: 0 <= k < 9 ==>
               t.decode(certs[k]).Some? && t.decode(certs[k]).value.issuer == IssuedBy(certs[k + 1])
    ensures !Trusted(t, certs[0], now)
  {
    forall chain | IsChain(t, chain, now) && chain[0] == certs[0] ensures false {
      FollowsIssuers(t, certs, chain, now, 9);
    }
  }

  /** A certificate that is its own issuer, or whose issuers come back to one of its identities, is not trusted. */
  lemma CirclesAreRefused(t: Trust, certs: seq<Cert>, now: int, j: nat, k: nat)
    requires j < k < |certs| && IdOf(t, certs[j]) == IdOf(t, certs[k])
    requires forall n :: 0 <= n < |certs| - 1 ==>
               t.decode(certs[n]).Some? && t.decode(certs[n]).value.issuer == IssuedBy(certs[n + 1])
    ensures !Trusted(t, certs[0], now)
  {
    forall chain | IsChain(t, chain, now) && chain[0] == certs[0] ensures false {
      FollowsIssuers(t, certs, chain, now, j);
      FollowsIssuers(t, certs, chain, now, k);
    }
  }
}
