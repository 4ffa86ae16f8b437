/**
 The webhook's hostname check: every rule host must match a listener hostname of the Gateway.
 Wildcards are tested on strings; the test is proved to be the one on dot-separated labels.
 */
module Hostnames {
  import opened Text
  import opened Lists
  import opened RouteApi

  /** A listener's hostname; none and the empty one both mean unrestricted. */
  type Listener = Option<string>

  predicate Unrestricted(l: Listener) {
    l.None? || l.value == ""
  }

  // ---------------------------------------------------------------- one pattern

  function TrimPrefix(s: string, prefix: string): string {
    if HasPrefix(s, prefix) then s[|prefix|..] else s
  }

  predicate HostMatchesPattern(host: string, pattern: string) {
    if pattern == "*" then true
    else if HasPrefix(pattern, "*.") then
      var suffix := TrimPrefix(pattern, "*.");
      if !HasSuffix(host, "." + suffix) then false else host != suffix
    else host == pattern
  }

  function Labels(name: string): seq<string> {
    Split(name, '.')
  }

  predicate ProperSuffix(tail: seq<string>, all: seq<string>) {
    |tail| < |all| && all[|all| - |tail|..] == tail
  }

  lemma DotSuffixSplits(head: string, suffix: string)
    ensures ProperSuffix(Labels(suffix), Labels(head + "." + suffix))
  {
    assert head + "." + suffix == head + ['.'] + suffix;
    SplitConcat(head, suffix, '.');
    assert (Labels(head) + Labels(suffix))[|Labels(head)|..] == Labels(suffix);
  }

  lemma JoinSuffix(front: seq<string>, back: seq<string>)
    requires |front| > 0 && |back| > 0
    ensures HasSuffix(Join(front + back, '.'), "." + Join(back, '.'))
  {
    JoinConcat(front, back, '.');
    SuffixOfConcat(Join(front, '.'), '.', Join(back, '.'));
  }

  lemma LabelSuffixJoins(host: string, suffix: string)
    requires ProperSuffix(Labels(suffix), Labels(host))
    ensures HasSuffix(host, "." + suffix)
  {
    var front := Labels(host)[..|Labels(host)| - |Labels(suffix)|];
    assert Labels(host) == front + Labels(suffix);
    JoinSuffix(front, Labels(suffix));
    JoinSplit(host, '.');
    JoinSplit(suffix, '.');
  }

  /** A string ends in a dot and `suffix` exactly when its labels properly end in the suffix's labels. */
  lemma DotSuffixIsLabelSuffix(host: string, suffix: string)
    ensures HasSuffix(host, "." + suffix) <==> ProperSuffix(Labels(suffix), Labels(host))
  {
    if HasSuffix(host, "." + suffix) {
      var head := host[..|host| - |suffix| - 1];
      assert host == head + "." + suffix;
      DotSuffixSplits(head, suffix);
    } else if ProperSuffix(Labels(suffix), Labels(host)) {
      LabelSuffixJoins(host, suffix);
    }
  }

  /** What a listener hostname admits: everything, the names with more labels under it, or itself. */
  predicate LabelMatch(host: string, pattern: string) {
    || pattern == "*"
    || (HasPrefix(pattern, "*.") && ProperSuffix(Labels(pattern[2..]), Labels(host)))
    || (pattern != "*" && !HasPrefix(pattern, "*.") && host == pattern)
  }

  lemma PatternMatchIsLabelMatch(host: string, pattern: string)
    ensures HostMatchesPattern(host, pattern) <==> LabelMatch(host, pattern)
  {
    if pattern != "*" && HasPrefix(pattern, "*.") {
      DotSuffixIsLabelSuffix(host, pattern[2..]);
    }
  }

  // ---------------------------------------------------------------- the Gateway's patterns

  predicate AnyUnrestricted(listeners: seq<Listener>) {
    exists i :: 0 <= i < |listeners| && Unrestricted(listeners[i])
  }

  function Hostnames(listeners: seq<Listener>): seq<string>
    requires !AnyUnrestricted(listeners)
  {
    seq(|listeners|, i requires 0 <= i < |listeners| =>
      assert !Unrestricted(listeners[i]); listeners[i].value)
  }

  /** `gatewayHostPatterns`: empty, meaning no restriction, as soon as one listener is unrestricted. */
  method GatewayHostPatterns(listeners: seq<Listener>) returns (patterns: seq<string>)
    ensures AnyUnrestricted(listeners) ==> patterns == []
    ensures !AnyUnrestricted(listeners) ==> patterns == Dedup(Hostnames(listeners))
  {
    var seen: set<string> := {};
    patterns := [];
    for i := 0 to |listeners|
      invariant !AnyUnrestricted(listeners[..i])
      invariant patterns == Dedup(Hostnames(listeners[..i]))
      invariant forall h :: h in seen <==> h in patterns
    {
      if listeners[i].None? || listeners[i].value == "" {
        assert Unrestricted(listeners[i]);
        return [];
      }
      var h := listeners[i].value;
      assert listeners[..i + 1] == listeners[..i] + [listeners[i]];
      assert Hostnames(listeners[..i + 1]) == Hostnames(listeners[..i]) + [h];
      assert Hostnames(listeners[..i + 1])[..i] == Hostnames(listeners[..i]);
      if h !in seen {
        seen := seen + {h};
        patterns := patterns + [h];
      }
    }
    assert listeners[..|listeners|] == listeners;
  }

  method HostMatchesAnyPattern(host: string, patterns: seq<string>) returns (found: bool)
    ensures found <==> exists p :: p in patterns && HostMatchesPattern(host, p)
  {
    for i := 0 to |patterns|
      invariant forall j :: 0 <= j < i ==> !HostMatchesPattern(host, patterns[j])
    {
      if HostMatchesPattern(host, patterns[i]) {
        assert patterns[i] in patterns;
        return true;
      }
    }
    found := false;
  }

  // ---------------------------------------------------------------- the check

  datatype HostVerdict = HostsAccepted | GatewayMissing | GatewayUnreadable | HostsRejected(rules: seq<nat>)

  /** Some listener admits the host, judged on labels. */
  predicate HostServed(listeners: seq<Listener>, host: string) {
    exists i :: 0 <= i < |listeners| && listeners[i].Some? && LabelMatch(host, listeners[i].value)
  }

  predicate HostAllowed(listeners: seq<Listener>, host: string) {
    listeners == [] || AnyUnrestricted(listeners) || HostServed(listeners, host)
  }

  /** The indices, in order, of the rules whose host no listener admits. */
  function BadHosts(listeners: seq<Listener>, rules: seq<Rule>): seq<nat> {
    if rules == [] then []
    else
      BadHosts(listeners, rules[..|rules| - 1]) +
      if HostAllowed(listeners, rules[|rules| - 1].host) then [] else [|rules| - 1]
  }

  function HostCheck(gateway: Lookup<seq<Listener>>, rules: seq<Rule>): HostVerdict {
    match gateway
    case NotFound => GatewayMissing
    case ReadError => GatewayUnreadable
    case Found(listeners) =>
      var bad := BadHosts(listeners, rules);
      if bad == [] then HostsAccepted else HostsRejected(bad)
  }

  lemma PatternsServe(listeners: seq<Listener>, host: string)
    requires !AnyUnrestricted(listeners)
    ensures (exists p :: p in Dedup(Hostnames(listeners)) && HostMatchesPattern(host, p)) <==>
            HostServed(listeners, host)
  {
    var names := Hostnames(listeners);
    if p :| p in Dedup(names) && HostMatchesPattern(host, p) {
      var i :| 0 <= i < |names| && names[i] == p;
      PatternMatchIsLabelMatch(host, p);
      assert listeners[i].Some? && LabelMatch(host, listeners[i].value);
    }
    if HostServed(listeners, host) {
      var i :| 0 <= i < |listeners| && listeners[i].Some? && LabelMatch(host, listeners[i].value);
      PatternMatchIsLabelMatch(host, names[i]);
      assert names[i] in names && names[i] in Dedup(names);
    }
  }

  /** `validateGatewayHostnames`, which works on the deduplicated patterns, decides by listeners and labels. */
  method ValidateGatewayHostnames(gateway: Lookup<seq<Listener>>, rules: seq<Rule>) returns (verdict: HostVerdict)
    ensures verdict == HostCheck(gateway, rules)
  {
    if gateway.NotFound? {
      return GatewayMissing;
    }
    if gateway.ReadError? {
      return GatewayUnreadable;
    }
    var listeners := gateway.value;
    var patterns := GatewayHostPatterns(listeners);
    if !AnyUnrestricted(listeners) && listeners != [] {
      assert Hostnames(listeners)[0] in Dedup(Hostnames(listeners));
    }
    if |patterns| == 0 {
      NoBadHosts(listeners, rules);
      return HostsAccepted;
    }
    var bad: seq<nat> := [];
    for i := 0 to |rules|
      invariant bad == BadHosts(listeners, rules[..i])
    {
      var matched := HostMatchesAnyPattern(rules[i].host, patterns);
      PatternsServe(listeners, rules[i].host);
      assert rules[..i + 1][..i] == rules[..i];
      if !matched {
        bad := bad + [i];
      }
    }
    assert rules[..|rules|] == rules;
    verdict := if bad != [] then HostsRejected(bad) else HostsAccepted;
  }

  lemma {:induction false} NoBadHosts(listeners: seq<Listener>, rules: seq<Rule>)
    ensures BadHosts(listeners, rules) == [] <==>
            forall i :: 0 <= i < |rules| ==> HostAllowed(listeners, rules[i].host)
  {
    if rules != [] {
      NoBadHosts(listeners, rules[..|rules| - 1]);
      assert forall i :: 0 <= i < |rules| - 1 ==> rules[i] == rules[..|rules| - 1][i];
      if BadHosts(listeners, rules) == [] {
        assert BadHosts(listeners, rules[..|rules| - 1]) == [];
      }
    }
  }

  /** The Gateway takes any host: it has no listeners, or one without a hostname. */
  ghost predicate TakesAnyHost(listeners: seq<Listener>) {
    listeners == [] || exists i :: 0 <= i < |listeners| && (listeners[i] == None || listeners[i] == Some(""))
  }

  ghost predicate TakesHost(listeners: seq<Listener>, host: string) {
    TakesAnyHost(listeners) ||
    exists i :: 0 <= i < |listeners| && listeners[i].Some? && LabelMatch(host, listeners[i].value)
  }

  lemma AllowedIsTaken(listeners: seq<Listener>, host: string)
    ensures HostAllowed(listeners, host) <==> TakesHost(listeners, host)
  {
  }

  ghost predicate Increasing(s: seq<nat>) {
    forall m, n :: 0 <= m < n < |s| ==> s[m] < s[n]
  }

  lemma NextIncreases(s: seq<nat>, next: nat)
    requires Increasing(s) && forall x :: x in s ==> x < next
    ensures Increasing(s + [next])
  {
    assert forall m :: 0 <= m < |s| ==> s[m] in s;
  }

  lemma {:induction false} BadHostsExactly(listeners: seq<Listener>, rules: seq<Rule>)
    ensures var bad := BadHosts(listeners, rules);
            && (forall i: nat :: i in bad <==> i < |rules| && !TakesHost(listeners, rules[i].host))
            && Increasing(bad)
  {
    if rules != [] {
      var init, last := rules[..|rules| - 1], rules[|rules| - 1];
      BadHostsExactly(listeners, init);
      var before := BadHosts(listeners, init);
      AllowedIsTaken(listeners, last.host);
      assert forall i: nat :: i < |init| ==> init[i] == rules[i];
      NextIncreases(before, |init|);
    }
  }

  /**
   The check accepts exactly when the Gateway is there and takes every rule host; otherwise it says what is wrong
   with the Gateway, or which rules have a host it does not take, all of them and in order.
   */
  lemma HostCheckExactly(gateway: Lookup<seq<Listener>>, rules: seq<Rule>)
    ensures var verdict := HostCheck(gateway, rules);
            && (verdict.HostsAccepted? <==>
                  gateway.Found? && forall i :: 0 <= i < |rules| ==> TakesHost(gateway.value, rules[i].host))
            && (verdict.GatewayMissing? <==> gateway.NotFound?)
            && (verdict.GatewayUnreadable? <==> gateway.ReadError?)
            && (verdict.HostsRejected? ==>
                  && gateway.Found?
                  && (forall i: nat :: i in verdict.rules <==>
                        i < |rules| && !TakesHost(gateway.value, rules[i].host))
                  && Increasing(verdict.rules))
  {
    if gateway.Found? {
      BadHostsExactly(gateway.value, rules);
      var bad := BadHosts(gateway.value, rules);
      if bad != [] { assert bad[0] in bad; }
    }
  }
}
