/**
 Header operations: the Gateway API filter lists them in sorted order, Istio takes them as maps.
 Both are given the meaning of a header edit, and the two meanings agree.
 */
module HeaderTranslation {
  import opened Text
  import opened RouteApi

  datatype HeaderFilter = HeaderFilter(setTo: seq<(string, string)>, add: seq<(string, string)>, remove: seq<string>)
  datatype GatewayFilter = RequestModifier(filter: HeaderFilter) | ResponseModifier(filter: HeaderFilter)

  const NO_OPS := HeaderOps(map[], map[], [])

  // ---------------------------------------------------------------- sorted entries

  function SortedEntries(m: map<string, string>): seq<(string, string)> {
    var keys := SortedKeys(m.Keys);
    seq(|keys|, i requires 0 <= i < |keys| => (keys[i], m[keys[i]]))
  }

  // ---------------------------------------------------------------- the two translations

  predicate HasOps(ops: Option<HeaderOps>) {
    ops.Some? && (|ops.value.setTo| > 0 || |ops.value.add| > 0 || |ops.value.remove| > 0)
  }

  function GatewayHeaderFilter(ops: Option<HeaderOps>): Option<HeaderFilter> {
    if !HasOps(ops) then None
    else Some(HeaderFilter(SortedEntries(ops.value.setTo), SortedEntries(ops.value.add), ops.value.remove))
  }

  function FilterList(request: Option<HeaderFilter>, response: Option<HeaderFilter>): seq<GatewayFilter> {
    (if request.Some? then [RequestModifier(request.value)] else []) +
    (if response.Some? then [ResponseModifier(response.value)] else [])
  }

  function GatewayHeaderFilters(headers: Option<Headers>): seq<GatewayFilter> {
    match headers
    case None => []
    case Some(h) =>
      FilterList(GatewayHeaderFilter(h.request), GatewayHeaderFilter(h.response))
  }

  function IstioHeaderOps(ops: Option<HeaderOps>): Option<HeaderOps> {
    if HasOps(ops) then ops else None
  }

  function IstioHeaders(headers: Option<Headers>): Option<Headers> {
    match headers
    case None => None
    case Some(h) =>
      var request, response := IstioHeaderOps(h.request), IstioHeaderOps(h.response);
      if request.None? && response.None? then None else Some(Headers(request, response))
  }

  // ---------------------------------------------------------------- meaning

  /** Applying a list of assignments in order: the last one for a name wins. */
  function Assignments(entries: seq<(string, string)>): map<string, string> {
    if entries == [] then map[]
    else Assignments(entries[..|entries| - 1])[entries[|entries| - 1].0 := entries[|entries| - 1].1]
  }

  function FilterMeaning(f: HeaderFilter): HeaderOps {
    HeaderOps(Assignments(f.setTo), Assignments(f.add), f.remove)
  }

  /** The edit a filter list makes on the request, or on the response. */
  function GatewayMeaning(filters: seq<GatewayFilter>, onRequest: bool): HeaderOps {
    if filters == [] then NO_OPS
    else
      var last := filters[|filters| - 1];
      if last.RequestModifier? == onRequest then FilterMeaning(last.filter)
      else GatewayMeaning(filters[..|filters| - 1], onRequest)
  }

  function IstioMeaning(headers: Option<Headers>, onRequest: bool): HeaderOps {
    match headers
    case None => NO_OPS
    case Some(h) =>
      var ops := if onRequest then h.request else h.response;
      if ops.Some? then ops.value else NO_OPS
  }

  lemma {:induction false} AssignmentsOfKeys(m: map<string, string>, keys: seq<string>)
    requires forall k :: k in keys ==> k in m
    ensures var entries := seq(|keys|, i requires 0 <= i < |keys| => (keys[i], m[keys[i]]));
            Assignments(entries) == map k | k in keys :: m[k]
  {
    var entries := seq(|keys|, i requires 0 <= i < |keys| => (keys[i], m[keys[i]]));
    if keys != [] {
      var init := keys[..|keys| - 1];
      AssignmentsOfKeys(m, init);
      assert entries[..|entries| - 1] == seq(|init|, i requires 0 <= i < |init| => (init[i], m[init[i]]));
      assert keys == init + [keys[|keys| - 1]];
    }
  }

  lemma SortedEntriesRoundTrip(m: map<string, string>)
    ensures Assignments(SortedEntries(m)) == m
  {
    AssignmentsOfKeys(m, SortedKeys(m.Keys));
  }

  lemma FilterMeansOps(ops: Option<HeaderOps>)
    ensures GatewayHeaderFilter(ops).Some? <==> HasOps(ops)
    ensures HasOps(ops) ==> FilterMeaning(GatewayHeaderFilter(ops).value) == ops.value
  {
    if HasOps(ops) {
      SortedEntriesRoundTrip(ops.value.setTo);
      SortedEntriesRoundTrip(ops.value.add);
    }
  }

  lemma ListMeaning(request: Option<HeaderFilter>, response: Option<HeaderFilter>, onRequest: bool)
    ensures var f := if onRequest then request else response;
            GatewayMeaning(FilterList(request, response), onRequest) ==
            if f.Some? then FilterMeaning(f.value) else NO_OPS
  {
    var filters := FilterList(request, response);
    if |filters| == 2 {
      assert filters[..1] == [filters[0]];
      assert filters[..1][..0] == [];
    } else if |filters| == 1 {
      assert filters[..0] == [];
    }
  }

  /** The edits a rule asks for on the request, or on the response. */
  ghost function EditsAsked(headers: Option<Headers>, onRequest: bool): HeaderOps {
    if headers.None? then NO_OPS
    else
      match if onRequest then headers.value.request else headers.value.response
      case None => NO_OPS
      case Some(ops) => ops
  }

  /** Operations without any entry ask for nothing. */
  lemma EmptyOps(ops: Option<HeaderOps>)
    requires ops.Some? && !HasOps(ops)
    ensures ops.value == NO_OPS
  {
  }

  lemma GatewayEdits(h: Headers, onRequest: bool)
    ensures var ops := if onRequest then h.request else h.response;
            GatewayMeaning(GatewayHeaderFilters(Some(h)), onRequest) == if HasOps(ops) then ops.value else NO_OPS
  {
    FilterMeansOps(h.request);
    FilterMeansOps(h.response);
    ListMeaning(GatewayHeaderFilter(h.request), GatewayHeaderFilter(h.response), onRequest);
  }

  lemma IstioEdits(h: Headers, onRequest: bool)
    ensures var ops := if onRequest then h.request else h.response;
            IstioMeaning(IstioHeaders(Some(h)), onRequest) == if HasOps(ops) then ops.value else NO_OPS
  {
  }

  ghost predicate SortedByName(entries: seq<(string, string)>) {
    forall i, j :: 0 <= i < j < |entries| ==> Less(entries[i].0, entries[j].0)
  }

  /** At most one filter for the request and one for the response, their entries sorted, so that they never flap. */
  ghost predicate Settled(filters: seq<GatewayFilter>) {
    && (forall i, j :: 0 <= i < j < |filters| ==> filters[i].RequestModifier? && filters[j].ResponseModifier?)
    && forall i :: 0 <= i < |filters| ==> SortedByName(filters[i].filter.setTo) && SortedByName(filters[i].filter.add)
  }

  lemma FilterSorted(ops: Option<HeaderOps>)
    ensures var f := GatewayHeaderFilter(ops); f.Some? ==> SortedByName(f.value.setTo) && SortedByName(f.value.add)
  {
  }

  lemma ListSettled(request: Option<HeaderFilter>, response: Option<HeaderFilter>)
    requires request.Some? ==> SortedByName(request.value.setTo) && SortedByName(request.value.add)
    requires response.Some? ==> SortedByName(response.value.setTo) && SortedByName(response.value.add)
    ensures Settled(FilterList(request, response))
  {
  }

  lemma FiltersSettled(headers: Option<Headers>)
    ensures Settled(GatewayHeaderFilters(headers))
  {
    if headers.Some? {
      FilterSorted(headers.value.request);
      FilterSorted(headers.value.response);
      ListSettled(GatewayHeaderFilter(headers.value.request), GatewayHeaderFilter(headers.value.response));
    }
  }

  /** Gateway API filters and Istio header operations both make exactly the edits that the rule asks for. */
  lemma HeaderEditsAgree(headers: Option<Headers>, onRequest: bool)
    ensures GatewayMeaning(GatewayHeaderFilters(headers), onRequest) == EditsAsked(headers, onRequest)
    ensures IstioMeaning(IstioHeaders(headers), onRequest) == EditsAsked(headers, onRequest)
  {
    if headers.Some? {
      var ops := if onRequest then headers.value.request else headers.value.response;
      GatewayEdits(headers.value, onRequest);
      IstioEdits(headers.value, onRequest);
      if ops.Some? && !HasOps(ops) { EmptyOps(ops); }
    }
  }
}
