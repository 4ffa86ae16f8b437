/** The Gateway's certificate check: a fold over all monitored certificate references. */
module Certificates {
  import opened RouteApi

  datatype CertRef = CertRef(group: Option<string>, kind: Option<string>, ns: Option<string>, name: string)
  datatype TlsListener = TlsListener(protocol: string, refs: Option<seq<CertRef>>)
  datatype SecretName = SecretName(ns: string, name: string)

  /** A secret that is there has an expiry, or cannot be parsed. */
  type SecretReads = SecretName -> Lookup<Option<int>>

  datatype CertVerdict = CertVerdict(status: ConditionStatus, reason: Reason) | CertError

  const WARN_BEFORE := 30 * 24 * 3600 * SECOND

  /** `certificateExpiryState`. */
  function ExpiryState(now: int, notAfter: int): CertVerdict {
    if now >= notAfter then CertVerdict(IsFalse, CertificateExpired)
    else if notAfter - now <= WARN_BEFORE then CertVerdict(IsFalse, CertificateExpiring)
    else CertVerdict(IsTrue, CertificateHealthy)
  }

  predicate MonitoredRef(ref: CertRef) {
    (ref.group.Some? ==> ref.group.value == "") && (ref.kind.Some? ==> ref.kind.value == "Secret")
  }

  function SecretOf(gatewayNs: string, ref: CertRef): SecretName {
    SecretName(if ref.ns.Some? && ref.ns.value != "" then ref.ns.value else gatewayNs, ref.name)
  }

  function MonitoredRefs(gatewayNs: string, refs: seq<CertRef>): seq<SecretName> {
    if refs == [] then []
    else
      MonitoredRefs(gatewayNs, refs[..|refs| - 1]) +
      if MonitoredRef(refs[|refs| - 1]) then [SecretOf(gatewayNs, refs[|refs| - 1])] else []
  }

  function ListenerSecrets(gatewayNs: string, listener: TlsListener): seq<SecretName> {
    if listener.protocol == "HTTPS" && listener.refs.Some? then MonitoredRefs(gatewayNs, listener.refs.value) else []
  }

  /** The secrets monitored for a Gateway, over all HTTPS listeners, in order. */
  function Monitored(gatewayNs: string, listeners: seq<TlsListener>): seq<SecretName> {
    if listeners == [] then []
    else Monitored(gatewayNs, listeners[..|listeners| - 1]) + ListenerSecrets(gatewayNs, listeners[|listeners| - 1])
  }

  predicate Resolves(read: SecretReads, s: SecretName) {
    read(s).Found? && read(s).value.Some?
  }

  function BadVerdict(read: SecretReads, s: SecretName): CertVerdict
    requires !Resolves(read, s)
  {
    match read(s)
    case NotFound => CertVerdict(IsFalse, CertificateSecretMissing)
    case ReadError => CertError
    case Found(_) => CertVerdict(IsFalse, CertificateParseError)
  }

  /** The first secret, in order, that does not resolve. */
  function FirstBad(read: SecretReads, secrets: seq<SecretName>): (bad: Option<nat>)
    ensures bad.Some? ==> bad.value < |secrets| && !Resolves(read, secrets[bad.value])
                          && forall i :: 0 <= i < bad.value ==> Resolves(read, secrets[i])
    ensures bad.None? ==> forall i :: 0 <= i < |secrets| ==> Resolves(read, secrets[i])
  {
    if secrets == [] then None
    else
      var init := FirstBad(read, secrets[..|secrets| - 1]);
      if init.Some? then init
      else if !Resolves(read, secrets[|secrets| - 1]) then Some(|secrets| - 1)
      else None
  }

  function Expiry(read: SecretReads, s: SecretName): int
    requires Resolves(read, s)
  {
    read(s).value.value
  }

  ghost predicate AllResolve(read: SecretReads, secrets: seq<SecretName>) {
    forall i :: 0 <= i < |secrets| ==> Resolves(read, secrets[i])
  }

  function Earliest(read: SecretReads, secrets: seq<SecretName>): (t: int)
    requires secrets != [] && AllResolve(read, secrets)
    ensures exists i :: 0 <= i < |secrets| && Expiry(read, secrets[i]) == t
    ensures forall i :: 0 <= i < |secrets| ==> t <= Expiry(read, secrets[i])
  {
    var last := Expiry(read, secrets[|secrets| - 1]);
    if |secrets| == 1 then last
    else
      var t := Earliest(read, secrets[..|secrets| - 1]);
      if last < t then last else t
  }

  /** The check, stated over the list of monitored secrets. */
  function CertCheck(gateway: Lookup<seq<TlsListener>>, gatewayNs: string, read: SecretReads, now: int): CertVerdict {
    match gateway
    case NotFound => CertVerdict(IsFalse, GatewayNotFound)
    case ReadError => CertError
    case Found(listeners) =>
      var secrets := Monitored(gatewayNs, listeners);
      var bad := FirstBad(read, secrets);
      if bad.Some? then BadVerdict(read, secrets[bad.value])
      else if secrets == [] then CertVerdict(IsTrue, CertificateNotConfigured)
      else ExpiryState(now, Earliest(read, secrets))
  }

  ghost predicate ScannedWell(read: SecretReads, secrets: seq<SecretName>, hasTls: bool, earliest: Option<int>) {
    && FirstBad(read, secrets).None?
    && hasTls == (secrets != [])
    && earliest == if secrets == [] then None else Some(Earliest(read, secrets))
  }

  lemma {:induction false} FirstBadOfPrefix(read: SecretReads, a: seq<SecretName>, b: seq<SecretName>)
    requires a <= b && FirstBad(read, a).Some?
    ensures FirstBad(read, b) == FirstBad(read, a)
  {
    if a != b {
      FirstBadOfPrefix(read, a, b[..|b| - 1]);
    }
  }

  lemma ScanOne(read: SecretReads, secrets: seq<SecretName>, s: SecretName)
    requires FirstBad(read, secrets).None?
    ensures FirstBad(read, secrets + [s]) == if Resolves(read, s) then None else Some(|secrets|)
    ensures Resolves(read, s) ==>
              Earliest(read, secrets + [s]) ==
              if secrets == [] || Expiry(read, s) < Earliest(read, secrets) then Expiry(read, s)
              else Earliest(read, secrets)
  {
    assert (secrets + [s])[..|secrets|] == secrets;
  }

  lemma {:induction false} MonitoredPrefix(gatewayNs: string, listeners: seq<TlsListener>, i: nat)
    requires i <= |listeners|
    ensures Monitored(gatewayNs, listeners[..i]) <= Monitored(gatewayNs, listeners)
  {
    if i == |listeners| {
      assert listeners[..i] == listeners;
    } else {
      var init := listeners[..|listeners| - 1];
      MonitoredPrefix(gatewayNs, init, i);
      assert init[..i] == listeners[..i];
      assert Monitored(gatewayNs, init) <= Monitored(gatewayNs, listeners);
    }
  }

  lemma {:induction false} RefsPrefix(gatewayNs: string, refs: seq<CertRef>, i: nat)
    requires i <= |refs|
    ensures MonitoredRefs(gatewayNs, refs[..i]) <= MonitoredRefs(gatewayNs, refs)
  {
    if i == |refs| {
      assert refs[..i] == refs;
    } else {
      var init := refs[..|refs| - 1];
      RefsPrefix(gatewayNs, init, i);
      assert init[..i] == refs[..i];
      assert MonitoredRefs(gatewayNs, init) <= MonitoredRefs(gatewayNs, refs);
    }
  }

  ghost predicate FoundBad(read: SecretReads, secrets: seq<SecretName>, verdict: CertVerdict) {
    FirstBad(read, secrets).Some? && verdict == BadVerdict(read, secrets[FirstBad(read, secrets).value])
  }

  /** One more secret `s`, among all of `secrets`: it is the first bad one, or the scan goes on. */
  lemma ScanStep(read: SecretReads, done: seq<SecretName>, s: SecretName, secrets: seq<SecretName>,
                 hasTls: bool, earliest: Option<int>)
    requires ScannedWell(read, done, hasTls, earliest) && done + [s] <= secrets
    ensures !Resolves(read, s) ==> FoundBad(read, secrets, BadVerdict(read, s))
    ensures Resolves(read, s) ==>
              var sooner := earliest.None? || Expiry(read, s) < earliest.value;
              var next := if sooner then Some(Expiry(read, s)) else earliest;
              ScannedWell(read, done + [s], true, next)
  {
    ScanOne(read, done, s);
    if !Resolves(read, s) {
      FirstBadOfPrefix(read, done + [s], secrets);
      assert secrets[|done|] == (done + [s])[|done|];
    }
  }

  /** Reads one secret and its expiry, or says what is wrong with it. */
  method ReadSecret(read: SecretReads, s: SecretName) returns (notAfter: int, bad: Option<CertVerdict>)
    ensures bad.None? <==> Resolves(read, s)
    ensures bad.Some? ==> bad.value == BadVerdict(read, s)
    ensures bad.None? ==> notAfter == Expiry(read, s)
  {
    var secret := read(s);
    if secret.NotFound? {
      return 0, Some(CertVerdict(IsFalse, CertificateSecretMissing));
    }
    if secret.ReadError? {
      return 0, Some(CertError);
    }
    if secret.value.None? {
      return 0, Some(CertVerdict(IsFalse, CertificateParseError));
    }
    return secret.value.value, None;
  }

  /** The references of one listener, after the secrets `seen`; a verdict comes back for the first bad one. */
  method ScanRefs(gatewayNs: string, refs: seq<CertRef>, read: SecretReads,
                  ghost seen: seq<SecretName>, hadTls: bool, before: Option<int>)
    returns (hasTls: bool, earliest: Option<int>, bad: Option<CertVerdict>)
    requires ScannedWell(read, seen, hadTls, before)
    ensures bad.None? ==> ScannedWell(read, seen + MonitoredRefs(gatewayNs, refs), hasTls, earliest)
    ensures bad.Some? ==> FoundBad(read, seen + MonitoredRefs(gatewayNs, refs), bad.value)
  {
    hasTls, earliest, bad := hadTls, before, None;
    ghost var done, secrets := seen, seen + MonitoredRefs(gatewayNs, refs);
    for j := 0 to |refs|
      invariant bad.None? && done == seen + MonitoredRefs(gatewayNs, refs[..j])
      invariant ScannedWell(read, done, hasTls, earliest)
    {
      var ref := refs[j];
      RefsNext(gatewayNs, seen, refs, j);
      if (ref.group.Some? && ref.group.value != "") || (ref.kind.Some? && ref.kind.value != "Secret") {
        continue;
      }
      var s := SecretName(if ref.ns.Some? && ref.ns.value != "" then ref.ns.value else gatewayNs, ref.name);
      ScanStep(read, done, s, secrets, hasTls, earliest);
      hasTls := true;
      var notAfter;
      notAfter, bad := ReadSecret(read, s);
      if bad.Some? {
        return;
      }
      if earliest.None? || notAfter < earliest.value {
        earliest := Some(notAfter);
      }
      done := done + [s];
    }
    assert refs[..|refs|] == refs;
  }

  lemma RefsNext(gatewayNs: string, seen: seq<SecretName>, refs: seq<CertRef>, j: nat)
    requires j < |refs|
    ensures var done := seen + MonitoredRefs(gatewayNs, refs[..j]);
            var next := done + if MonitoredRef(refs[j]) then [SecretOf(gatewayNs, refs[j])] else [];
            seen + MonitoredRefs(gatewayNs, refs[..j + 1]) == next && next <= seen + MonitoredRefs(gatewayNs, refs)
  {
    assert refs[..j + 1][..j] == refs[..j];
    RefsPrefix(gatewayNs, refs, j + 1);
  }

  lemma MonitoredNext(gatewayNs: string, listeners: seq<TlsListener>, i: nat)
    requires i < |listeners|
    ensures Monitored(gatewayNs, listeners[..i + 1]) ==
            Monitored(gatewayNs, listeners[..i]) + ListenerSecrets(gatewayNs, listeners[i])
    ensures Monitored(gatewayNs, listeners[..i + 1]) <= Monitored(gatewayNs, listeners)
  {
    assert listeners[..i + 1][..i] == listeners[..i];
    MonitoredPrefix(gatewayNs, listeners, i + 1);
  }

  /** One listener, after the secrets `seen`. */
  method ScanListener(gatewayNs: string, listener: TlsListener, read: SecretReads,
                      ghost seen: seq<SecretName>, hadTls: bool, before: Option<int>)
    returns (hasTls: bool, earliest: Option<int>, bad: Option<CertVerdict>)
    requires ScannedWell(read, seen, hadTls, before)
    ensures bad.None? ==> ScannedWell(read, seen + ListenerSecrets(gatewayNs, listener), hasTls, earliest)
    ensures bad.Some? ==> FoundBad(read, seen + ListenerSecrets(gatewayNs, listener), bad.value)
  {
    hasTls, earliest, bad := hadTls, before, None;
    if listener.protocol == "HTTPS" && listener.refs.Some? {
      hasTls, earliest, bad := ScanRefs(gatewayNs, listener.refs.value, read, seen, hadTls, before);
    } else {
      assert seen + [] == seen;
    }
  }

  /** `evaluateGatewayCertificate`: listeners, then references, stopping at the first bad one. */
  method EvaluateGatewayCertificate(gateway: Lookup<seq<TlsListener>>, gatewayNs: string, read: SecretReads, now: int)
    returns (verdict: CertVerdict)
    ensures verdict == CertCheck(gateway, gatewayNs, read, now)
  {
    if gateway.NotFound? {
      return CertVerdict(IsFalse, GatewayNotFound);
    }
    if gateway.ReadError? {
      return CertError;
    }
    var listeners := gateway.value;
    var earliest: Option<int> := None;
    var hasTls := false;
    ghost var seen: seq<SecretName> := [];
    for i := 0 to |listeners|
      invariant seen == Monitored(gatewayNs, listeners[..i])
      invariant ScannedWell(read, seen, hasTls, earliest)
    {
      var bad;
      hasTls, earliest, bad := ScanListener(gatewayNs, listeners[i], read, seen, hasTls, earliest);
      MonitoredNext(gatewayNs, listeners, i);
      seen := seen + ListenerSecrets(gatewayNs, listeners[i]);
      if bad.Some? {
        FirstBadOfPrefix(read, seen, Monitored(gatewayNs, listeners));
        return bad.value;
      }
    }
    assert listeners[..|listeners|] == listeners;
    if !hasTls || earliest.None? {
      return CertVerdict(IsTrue, CertificateNotConfigured);
    }
    verdict := ExpiryState(now, earliest.value);
  }

  // ---------------------------------------------------------------- what is monitored

  /** The `j`-th reference of a listener is to the Secret `s`, and the check looks at it. */
  ghost predicate Refers(gatewayNs: string, listener: TlsListener, j: nat, s: SecretName) {
    && listener.protocol == "HTTPS" && listener.refs.Some? && j < |listener.refs.value|
    && var ref := listener.refs.value[j];
    && (ref.group.None? || ref.group == Some("")) && (ref.kind.None? || ref.kind == Some("Secret"))
    && s == SecretName(if ref.ns.None? || ref.ns == Some("") then gatewayNs else ref.ns.value, ref.name)
  }

  ghost predicate Watched(gatewayNs: string, listeners: seq<TlsListener>, s: SecretName) {
    exists i, j: nat :: 0 <= i < |listeners| && Refers(gatewayNs, listeners[i], j, s)
  }

  lemma {:induction false} RefsAre(gatewayNs: string, listener: TlsListener, n: nat, s: SecretName)
    requires listener.protocol == "HTTPS" && listener.refs.Some? && n <= |listener.refs.value|
    ensures s in MonitoredRefs(gatewayNs, listener.refs.value[..n]) <==>
            exists j: nat :: j < n && Refers(gatewayNs, listener, j, s)
  {
    if n > 0 {
      var refs := listener.refs.value;
      assert refs[..n][..n - 1] == refs[..n - 1];
      RefsAre(gatewayNs, listener, n - 1, s);
      assert MonitoredRef(refs[n - 1]) && SecretOf(gatewayNs, refs[n - 1]) == s <==>
        Refers(gatewayNs, listener, n - 1, s);
    }
  }

  lemma ListenerAre(gatewayNs: string, listener: TlsListener, s: SecretName)
    ensures s in ListenerSecrets(gatewayNs, listener) <==> exists j: nat :: Refers(gatewayNs, listener, j, s)
  {
    if listener.protocol == "HTTPS" && listener.refs.Some? {
      RefsAre(gatewayNs, listener, |listener.refs.value|, s);
      assert listener.refs.value[..|listener.refs.value|] == listener.refs.value;
    }
  }

  /** The list of monitored secrets holds exactly the Secrets that HTTPS listeners refer to. */
  lemma {:induction false} MonitoredExactly(gatewayNs: string, listeners: seq<TlsListener>, s: SecretName)
    ensures s in Monitored(gatewayNs, listeners) <==> Watched(gatewayNs, listeners, s)
  {
    if listeners != [] {
      var init := listeners[..|listeners| - 1];
      MonitoredExactly(gatewayNs, init, s);
      ListenerAre(gatewayNs, listeners[|listeners| - 1], s);
      if Watched(gatewayNs, init, s) {
        var i, j: nat :| 0 <= i < |init| && Refers(gatewayNs, init[i], j, s);
        assert Refers(gatewayNs, listeners[i], j, s);
      }
      if Watched(gatewayNs, listeners, s) {
        var i, j: nat :| 0 <= i < |listeners| && Refers(gatewayNs, listeners[i], j, s);
        if i < |init| { assert Refers(gatewayNs, init[i], j, s); }
      }
    }
  }

  // ---------------------------------------------------------------- what the verdict says

  /** There, readable and parsed, with its certificate good until after `t`. */
  ghost predicate GoodAfter(read: SecretReads, s: SecretName, t: int) {
    read(s).Found? && read(s).value.Some? && read(s).value.value > t
  }

  ghost predicate AllRead(gatewayNs: string, listeners: seq<TlsListener>, read: SecretReads) {
    forall s :: Watched(gatewayNs, listeners, s) ==> read(s).Found? && read(s).value.Some?
  }

  ghost predicate AllGood(gatewayNs: string, listeners: seq<TlsListener>, read: SecretReads, t: int) {
    forall s :: Watched(gatewayNs, listeners, s) ==> GoodAfter(read, s, t)
  }

  ghost predicate SomeWatched(gatewayNs: string, listeners: seq<TlsListener>) {
    exists s :: Watched(gatewayNs, listeners, s)
  }

  lemma FirstBadMeans(gatewayNs: string, listeners: seq<TlsListener>, read: SecretReads)
    ensures FirstBad(read, Monitored(gatewayNs, listeners)).None? <==> AllRead(gatewayNs, listeners, read)
    ensures Monitored(gatewayNs, listeners) != [] <==> SomeWatched(gatewayNs, listeners)
  {
    var secrets := Monitored(gatewayNs, listeners);
    forall s
      ensures s in secrets <==> Watched(gatewayNs, listeners, s)
    {
      MonitoredExactly(gatewayNs, listeners, s);
    }
    var bad := FirstBad(read, secrets);
    if bad.Some? { assert secrets[bad.value] in secrets; }
    if secrets != [] { assert secrets[0] in secrets; }
  }

  lemma EarliestMeans(gatewayNs: string, listeners: seq<TlsListener>, read: SecretReads, t: int)
    requires AllRead(gatewayNs, listeners, read) && SomeWatched(gatewayNs, listeners)
    ensures var secrets := Monitored(gatewayNs, listeners);
            secrets != [] && AllResolve(read, secrets) &&
            (Earliest(read, secrets) > t <==> AllGood(gatewayNs, listeners, read, t))
  {
    var secrets := Monitored(gatewayNs, listeners);
    FirstBadMeans(gatewayNs, listeners, read);
    forall s
      ensures s in secrets <==> Watched(gatewayNs, listeners, s)
    {
      MonitoredExactly(gatewayNs, listeners, s);
    }
    var e := Earliest(read, secrets);
    var i :| 0 <= i < |secrets| && Expiry(read, secrets[i]) == e;
    assert secrets[i] in secrets;
  }

  const THIRTY_DAYS := 2_592_000_000_000_000   // nanoseconds

  /**
   The expiry verdicts, over everything monitored: healthy if it is all good for more than 30 days, expiring if it
   is all good still, but not that long, expired if some of it is not; not configured if nothing is monitored.
   Without the Gateway there is nothing to check.
   */
  lemma ExpiryExactly(gateway: Lookup<seq<TlsListener>>, gatewayNs: string, read: SecretReads, now: int)
    ensures var verdict := CertCheck(gateway, gatewayNs, read, now);
            && (verdict == CertVerdict(IsFalse, GatewayNotFound) <==> gateway.NotFound?)
            && (gateway.ReadError? ==> verdict == CertError)
    ensures gateway.Found? ==>
            var verdict, listeners := CertCheck(gateway, gatewayNs, read, now), gateway.value;
            var readable := SomeWatched(gatewayNs, listeners) && AllRead(gatewayNs, listeners, read);
            && (verdict == CertVerdict(IsTrue, CertificateHealthy) <==>
                  readable && AllGood(gatewayNs, listeners, read, now + THIRTY_DAYS))
            && (verdict == CertVerdict(IsFalse, CertificateExpiring) <==>
                  readable && AllGood(gatewayNs, listeners, read, now)
                  && !AllGood(gatewayNs, listeners, read, now + THIRTY_DAYS))
            && (verdict == CertVerdict(IsFalse, CertificateExpired) <==>
                  readable && !AllGood(gatewayNs, listeners, read, now))
            && (verdict == CertVerdict(IsTrue, CertificateNotConfigured) <==> !SomeWatched(gatewayNs, listeners))
  {
    if gateway.Found? {
      var listeners := gateway.value;
      FirstBadMeans(gatewayNs, listeners, read);
      if AllRead(gatewayNs, listeners, read) && SomeWatched(gatewayNs, listeners) {
        EarliestMeans(gatewayNs, listeners, read, now);
        EarliestMeans(gatewayNs, listeners, read, now + THIRTY_DAYS);
      }
    }
  }

  /** The `j`-th reference of the `i`-th listener is the first that is not there, or cannot be read or parsed. */
  ghost predicate FirstUnread(gatewayNs: string, listeners: seq<TlsListener>, read: SecretReads, i: nat, j: nat,
                              s: SecretName) {
    && i < |listeners| && Refers(gatewayNs, listeners[i], j, s)
    && !(read(s).Found? && read(s).value.Some?)
    && (forall k, m: nat, t :: 0 <= k < i && Refers(gatewayNs, listeners[k], m, t) ==>
          read(t).Found? && read(t).value.Some?)
    && (forall m: nat, t :: m < j && Refers(gatewayNs, listeners[i], m, t) ==> read(t).Found? && read(t).value.Some?)
  }

  /** What is monitored before one reference. */
  lemma BeforeReference(gatewayNs: string, listeners: seq<TlsListener>, i: nat, j: nat, s: SecretName)
    returns (before: seq<SecretName>)
    requires i < |listeners| && Refers(gatewayNs, listeners[i], j, s)
    ensures before + [s] <= Monitored(gatewayNs, listeners)
    ensures forall t :: t in before ==>
              Watched(gatewayNs, listeners[..i], t) ||
              exists m: nat :: m < j && Refers(gatewayNs, listeners[i], m, t)
  {
    var refs := listeners[i].refs.value;
    var past := Monitored(gatewayNs, listeners[..i]);
    before := past + MonitoredRefs(gatewayNs, refs[..j]);
    MonitoredNext(gatewayNs, listeners, i);
    RefsNext(gatewayNs, past, refs, j);
    assert before + [s] <= past + MonitoredRefs(gatewayNs, refs) <= Monitored(gatewayNs, listeners);
    forall t | t in before
      ensures Watched(gatewayNs, listeners[..i], t) ||
              exists m: nat :: m < j && Refers(gatewayNs, listeners[i], m, t)
    {
      MonitoredExactly(gatewayNs, listeners[..i], t);
      RefsAre(gatewayNs, listeners[i], j, t);
    }
  }

  /** The first Secret, listener by listener and reference by reference, that cannot be used decides the verdict. */
  lemma FirstUnreadDecides(listeners: seq<TlsListener>, gatewayNs: string, read: SecretReads, now: int, i: nat, j: nat,
                           s: SecretName)
    requires FirstUnread(gatewayNs, listeners, read, i, j, s)
    ensures CertCheck(Found(listeners), gatewayNs, read, now) ==
            if read(s).NotFound? then CertVerdict(IsFalse, CertificateSecretMissing)
            else if read(s).ReadError? then CertError
            else CertVerdict(IsFalse, CertificateParseError)
  {
    var secrets := Monitored(gatewayNs, listeners);
    var before := BeforeReference(gatewayNs, listeners, i, j, s);
    forall n | 0 <= n < |before|
      ensures Resolves(read, before[n])
    {
      var t := before[n];
      if Watched(gatewayNs, listeners[..i], t) {
        var k, m: nat :| 0 <= k < |listeners[..i]| && Refers(gatewayNs, listeners[..i][k], m, t);
        assert listeners[..i][k] == listeners[k];
      }
    }
    ScanOne(read, before, s);
    FirstBadOfPrefix(read, before + [s], secrets);
    assert secrets[|before|] == (before + [s])[|before|];
  }

  function Severity(reason: Reason): nat {
    match reason
    case CertificateExpiring => 1
    case CertificateExpired => 2
    case _ => 0
  }

  /**
   With the same inputs time only makes it worse: an expiry verdict never improves, and every other
   verdict does not depend on the time.
   */
  lemma SeverityMonotone(gateway: Lookup<seq<TlsListener>>, gatewayNs: string, read: SecretReads, now: int, later: int)
    requires now <= later
    ensures var a, b := CertCheck(gateway, gatewayNs, read, now), CertCheck(gateway, gatewayNs, read, later);
            if a.CertVerdict? && a.reason in {CertificateHealthy, CertificateExpiring, CertificateExpired}
            then b.CertVerdict? && Severity(a.reason) <= Severity(b.reason)
                 && b.reason in {CertificateHealthy, CertificateExpiring, CertificateExpired}
            else b == a
  {
  }
}
