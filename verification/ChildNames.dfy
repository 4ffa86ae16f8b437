/**
 The objects a Route manages, and their names. A slot is the role an object plays for its
 Route; `KeyOf` is the (kind, namespace, name) under which the API server stores it.
 */
module ChildNames {
  import opened Text
  import opened RouteApi

  datatype Kind =
    | HttpRouteKind | VirtualServiceKind | DestinationRuleKind
    | EnvoyFilterKind | RequestAuthenticationKind | AuthorizationPolicyKind

  datatype ChildKey = ChildKey(kind: Kind, ns: string, name: string)

  datatype Slot =
    | RuleRoute(index: nat)      // HTTPRoute of one rule
    | RedirectRoute(index: nat)  // HTTP to HTTPS redirect of one host
    | Virtual                    // the shared VirtualService
    | TlsRule(index: nat)        // DestinationRule of one HTTPS backend
    | BodySize(index: nat)       // EnvoyFilter limiting request bodies of one rule
    | Jwt                        // RequestAuthentication
    | Authz                      // AuthorizationPolicy
    | RateLimiter                // EnvoyFilter with the token bucket

  function KindOf(slot: Slot): Kind {
    match slot
    case RuleRoute(_) => HttpRouteKind
    case RedirectRoute(_) => HttpRouteKind
    case Virtual => VirtualServiceKind
    case TlsRule(_) => DestinationRuleKind
    case BodySize(_) => EnvoyFilterKind
    case Jwt => RequestAuthenticationKind
    case Authz => AuthorizationPolicyKind
    case RateLimiter => EnvoyFilterKind
  }

  /** Kinds written to the Route's own namespace carry an owner reference; the others do not. */
  predicate Owned(kind: Kind) {
    kind.HttpRouteKind? || kind.VirtualServiceKind?
  }

  function NameOf(route: string, slot: Slot): string {
    match slot
    case RuleRoute(i) => route + "-" + Decimal(i)
    case RedirectRoute(i) => route + "-redirect-" + Decimal(i)
    case Virtual => route
    case TlsRule(i) => route + "-tls-" + Decimal(i)
    case BodySize(i) => route + "-body-size-" + Decimal(i)
    case Jwt => route + "-jwt"
    case Authz => route + "-authz"
    case RateLimiter => route + "-rate-limit"
  }

  function KeyOf(owner: RouteKey, gatewayNs: string, slot: Slot): (k: ChildKey)
    ensures k.kind == KindOf(slot)
    ensures k.ns == if Owned(k.kind) then owner.ns else gatewayNs
  {
    ChildKey(KindOf(slot), if Owned(KindOf(slot)) then owner.ns else gatewayNs, NameOf(owner.name, slot))
  }

  // ---------------------------------------------------------------- name families

  lemma IndexedNamesUnique(a: string, b: string, family: string, i: nat, j: nat)
    requires HasSuffix(family, "-")
    requires a + family + Decimal(i) == b + family + Decimal(j)
    ensures a == b && i == j
  {
    var stem := family[..|family| - 1];
    assert family == stem + ['-'];
    assert a + family + Decimal(i) == (a + stem) + ['-'] + Decimal(i);
    assert b + family + Decimal(j) == (b + stem) + ['-'] + Decimal(j);
    NumeralSuffixUnique(a + stem, i, b + stem, j, '-');
    assert (a + stem)[..|a|] == a && (b + stem)[..|b|] == b;
  }

  lemma RateLimitIsNoBodySize(a: string, b: string, i: nat)
    ensures NameOf(a, RateLimiter) != NameOf(b, BodySize(i))
  {
    var s, t := NameOf(a, RateLimiter), NameOf(b, BodySize(i));
    assert s[|s| - 1] == 't';
    assert IsDigit(t[|t| - 1]);
  }

  /** A rule's HTTPRoute and a redirect collide only across a pair of names `x-redirect` and `x`. */
  lemma RuleMeetsRedirect(a: string, i: nat, b: string, j: nat)
    ensures NameOf(a, RuleRoute(i)) == NameOf(b, RedirectRoute(j)) <==> a == b + "-redirect" && i == j
  {
    assert "-redirect-" == "-redirect" + "-";
    assert NameOf(b, RedirectRoute(j)) == (b + "-redirect") + "-" + Decimal(j);
    if NameOf(a, RuleRoute(i)) == NameOf(b, RedirectRoute(j)) {
      NumeralSuffixUnique(a, i, b + "-redirect", j, '-');
    }
  }

  /** Same slot family: the name gives back both the Route's name and the index. */
  lemma SameFamilyUnique(a: string, s: Slot, b: string, t: Slot)
    requires KindOf(s) == KindOf(t) && NameOf(a, s) == NameOf(b, t)
    requires !(s.RuleRoute? && t.RedirectRoute?) && !(s.RedirectRoute? && t.RuleRoute?)
    ensures a == b && s == t
  {
    match s
    case RuleRoute(i) => IndexedNamesUnique(a, b, "-", i, t.index);
    case RedirectRoute(i) =>
      IndexedNamesUnique(a, b, "-redirect-", i, t.index);
    case Virtual =>
    case TlsRule(i) =>
      IndexedNamesUnique(a, b, "-tls-", i, t.index);
    case BodySize(i) =>
      if t.RateLimiter? { RateLimitIsNoBodySize(b, a, i); }
      IndexedNamesUnique(a, b, "-body-size-", i, t.index);
    case Jwt => assert NameOf(a, s)[..|a|] == a && NameOf(b, t)[..|b|] == b;
    case Authz => assert NameOf(a, s)[..|a|] == a && NameOf(b, t)[..|b|] == b;
    case RateLimiter =>
      if t.BodySize? { RateLimitIsNoBodySize(a, b, t.index); }
      assert NameOf(a, s)[..|a|] == a && NameOf(b, t)[..|b|] == b;
  }

  /** Within one Route no two slots share a key. */
  lemma SlotKeysInjective(owner: RouteKey, gatewayNs: string, s: Slot, t: Slot)
    requires KeyOf(owner, gatewayNs, s) == KeyOf(owner, gatewayNs, t)
    ensures s == t
  {
    if s.RuleRoute? && t.RedirectRoute? {
      RuleMeetsRedirect(owner.name, s.index, owner.name, t.index);
    } else if s.RedirectRoute? && t.RuleRoute? {
      RuleMeetsRedirect(owner.name, t.index, owner.name, s.index);
    } else {
      SameFamilyUnique(owner.name, s, owner.name, t);
    }
  }

  ghost predicate RedirectClash(a: RouteKey, s: Slot, b: RouteKey, t: Slot) {
    s.RuleRoute? && t.RedirectRoute? && s.index == t.index && a.ns == b.ns && a.name == b.name + "-redirect"
  }

  /**
   Two different Routes write one and the same object in exactly these cases: they have the same
   name and the object lives in a gateway namespace both use, or they share a namespace and one is
   called like the other with "-redirect" appended.
   */
  lemma SharedKeyExactly(a: RouteKey, ga: string, s: Slot, b: RouteKey, gb: string, t: Slot)
    requires a != b
    ensures KeyOf(a, ga, s) == KeyOf(b, gb, t) <==>
              || (s == t && !Owned(KindOf(s)) && a.name == b.name && ga == gb)
              || RedirectClash(a, s, b, t)
              || RedirectClash(b, t, a, s)
  {
    if s.RuleRoute? && t.RedirectRoute? {
      RuleMeetsRedirect(a.name, s.index, b.name, t.index);
    } else if s.RedirectRoute? && t.RuleRoute? {
      RuleMeetsRedirect(b.name, t.index, a.name, s.index);
    } else if KeyOf(a, ga, s) == KeyOf(b, gb, t) {
      SameFamilyUnique(a.name, s, b.name, t);
    }
  }
}
