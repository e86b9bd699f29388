/** The endpoint metadata (partitions, regions, services, endpoints) and the
    resolution algorithm that turns a (service, region) pair into a URL and
    the signing region and name a request signer needs. */
module PartitionModel {
  import opened TextUtil
  import opened Urls
  import opened EndpointOptions

  datatype Option<T> = None | Some(value: T)

  /** A boolean that can also be left unset, so that merging can tell "not
      said" from "false". */
  datatype BoxedBool = Unset | BoxedTrue | BoxedFalse

  datatype CredentialScope = CredentialScope(region: string, service: string)

  /** One endpoint entry; an empty string or list means "not set". */
  datatype Endpoint = Endpoint(
    hostname: string,
    protocols: seq<string>,
    credentialScope: CredentialScope,
    hasDualStack: BoxedBool,
    dualStackHostname: string)

  /** The entry with nothing set. */
  const BlankEndpoint := Endpoint("", [], CredentialScope("", ""), Unset, "")

  datatype Service = Service(
    partitionEndpoint: string,
    isRegionalized: BoxedBool,
    defaults: Endpoint,
    endpoints: map<string, Endpoint>)

  datatype Region = Region(description: string)

  datatype Partition = Partition(
    id: string,
    name: string,
    dnsSuffix: string,
    defaults: Endpoint,
    regions: map<string, Region>,
    services: map<string, Service>)

  datatype ResolvedEndpoint = ResolvedEndpoint(url: string, signingRegion: string, signingName: string)

  datatype ResolveError =
    | UnknownServiceError(partition: string, service: string)
    | UnknownEndpointError(partition: string, service: string, region: string)

  datatype Result<T> = Ok(value: T) | Err(error: ResolveError)

  /** The partition name reported when no partition can resolve a pair. */
  const AllPartitions := "all partitions"

  // ---------------------------------------------------------------------
  // Merging endpoint layers

  /** `e` with every field that `other` sets taken from `other`. */
  function MergeIn(e: Endpoint, other: Endpoint): Endpoint {
    Endpoint(
      if other.hostname != "" then other.hostname else e.hostname,
      if other.protocols != [] then other.protocols else e.protocols,
      CredentialScope(
        if other.credentialScope.region != "" then other.credentialScope.region else e.credentialScope.region,
        if other.credentialScope.service != "" then other.credentialScope.service else e.credentialScope.service),
      if other.hasDualStack != Unset then other.hasDualStack else e.hasDualStack,
      if other.dualStackHostname != "" then other.dualStackHostname else e.dualStackHostname)
  }

  /** Merges `layers` into `e`, each later layer overriding the earlier ones. */
  function MergeAll(e: Endpoint, layers: seq<Endpoint>): Endpoint
    decreases |layers|
  {
    if layers == [] then e else MergeAll(MergeIn(e, layers[0]), layers[1..])
  }

  /** A blank layer changes nothing, and merging the same layer twice is
      merging it once. */
  lemma MergeInBlankAndTwice(e: Endpoint, other: Endpoint)
    ensures MergeIn(e, BlankEndpoint) == e
    ensures MergeIn(BlankEndpoint, e) == e
    ensures MergeIn(MergeIn(e, other), other) == MergeIn(e, other)
  {
  }

  /** The endpoint a (service, region) pair resolves through: partition
      defaults, then service defaults, then the explicit entry. */
  function Merged(partitionDefaults: Endpoint, serviceDefaults: Endpoint, e: Endpoint): Endpoint {
    MergeAll(BlankEndpoint, [partitionDefaults, serviceDefaults, e])
  }

  /** Field by field, an explicit entry wins over the service defaults, which
      win over the partition defaults. */
  lemma LayerPrecedence(pd: Endpoint, sd: Endpoint, e: Endpoint)
    ensures var m := Merged(pd, sd, e);
      && m.hostname == (if e.hostname != "" then e.hostname
                        else if sd.hostname != "" then sd.hostname else pd.hostname)
      && m.protocols == (if e.protocols != [] then e.protocols
                         else if sd.protocols != [] then sd.protocols else pd.protocols)
      && m.credentialScope.region ==
           (if e.credentialScope.region != "" then e.credentialScope.region
            else if sd.credentialScope.region != "" then sd.credentialScope.region
            else pd.credentialScope.region)
      && m.credentialScope.service ==
           (if e.credentialScope.service != "" then e.credentialScope.service
            else if sd.credentialScope.service != "" then sd.credentialScope.service
            else pd.credentialScope.service)
      && m.hasDualStack == (if e.hasDualStack != Unset then e.hasDualStack
                            else if sd.hasDualStack != Unset then sd.hasDualStack else pd.hasDualStack)
      && m.dualStackHostname ==
           (if e.dualStackHostname != "" then e.dualStackHostname
            else if sd.dualStackHostname != "" then sd.dualStackHostname else pd.dualStackHostname)
  {
    var layers := [pd, sd, e];
    assert layers[1..] == [sd, e] && layers[1..][1..] == [e] && layers[1..][1..][1..] == [];
    var m1 := MergeIn(BlankEndpoint, pd);
    var m2 := MergeIn(m1, sd);
    var m3 := MergeIn(m2, e);
    assert MergeAll(BlankEndpoint, layers) == MergeAll(m1, [sd, e]) == MergeAll(m2, [e]) == MergeAll(m3, []);
  }

  // ---------------------------------------------------------------------
  // Scheme selection

  /** Protocols the engine knows, most preferred first. */
  const ProtocolPriority: seq<string> := ["https", "http"]

  const DefaultProtocol := "https"

  /** The first entry of `priority` that `s` lists, or `s[0]` when `s` lists
      none of them. */
  function FirstByPriority(s: seq<string>, priority: seq<string>): (r: string)
    requires s != []
    ensures r in s
    ensures forall k :: 0 <= k < |priority| && priority[k] in s && (forall j :: 0 <= j < k ==> priority[j] !in s)
                        ==> r == priority[k]
    ensures (forall j :: 0 <= j < |priority| ==> priority[j] !in s) ==> r == s[0]
    decreases |priority|
  {
    if priority == [] then s[0]
    else if priority[0] in s then priority[0]
    else
      var r := FirstByPriority(s, priority[1..]);
      assert forall k :: 1 <= k < |priority| ==> priority[k] == priority[1..][k - 1];
      r
  }

  /** The preferred protocol of `s`, or `default` when `s` is empty. */
  function ByPriority(s: seq<string>, priority: seq<string>, default: string): string {
    if s == [] then default else FirstByPriority(s, priority)
  }

  /** The URL scheme of a resolved endpoint: `http` when SSL is disabled,
      otherwise the endpoint's preferred protocol, `https` when it lists none. */
  function EndpointScheme(protocols: seq<string>, disableSSL: bool): (r: string)
    ensures disableSSL ==> r == "http"
    ensures !disableSSL && (protocols == [] || "https" in protocols) ==> r == "https"
    ensures !disableSSL && protocols != [] && "https" !in protocols ==>
              r == (if "http" in protocols then "http" else protocols[0])
  {
    if disableSSL then "http" else ByPriority(protocols, ProtocolPriority, DefaultProtocol)
  }

  // ---------------------------------------------------------------------
  // Hostname patterns

  const ServiceKey := "{service}"
  const RegionKey := "{region}"
  const DnsSuffixKey := "{dnsSuffix}"

  /** The usual hostname pattern, `{service}.{region}.{dnsSuffix}`. */
  const StandardPattern := ServiceKey + "." + RegionKey + "." + DnsSuffixKey

  /** Fills the first `{service}`, `{region}` and `{dnsSuffix}` placeholders. */
  function Substitute(pattern: string, service: string, region: string, dnsSuffix: string): string {
    var u := ReplaceFirst(pattern, ServiceKey, service);
    var u := ReplaceFirst(u, RegionKey, region);
    ReplaceFirst(u, DnsSuffixKey, dnsSuffix)
  }

  /** The standard pattern becomes `<service>.<region>.<dnsSuffix>` for any
      service and region names without a `{`. */
  lemma StandardHostname(service: string, region: string, dnsSuffix: string)
    requires '{' !in service && '{' !in region
    ensures Substitute(StandardPattern, service, region, dnsSuffix) == service + "." + region + "." + dnsSuffix
  {
    var dot := ".";
    assert StandardPattern == [] + ServiceKey + (dot + RegionKey + dot + DnsSuffixKey);
    var u1 := SubstituteStep([], ServiceKey, dot + RegionKey + dot + DnsSuffixKey, service);
    assert u1 == (service + dot) + RegionKey + (dot + DnsSuffixKey);
    var u2 := SubstituteStep(service + dot, RegionKey, dot + DnsSuffixKey, region);
    assert u2 == (service + dot + region + dot) + DnsSuffixKey + [];
    var u3 := SubstituteStep(service + dot + region + dot, DnsSuffixKey, [], dnsSuffix);
    assert u3 == service + dot + region + dot + dnsSuffix;
  }

  /** One placeholder replacement, for a prefix free of `{`. */
  lemma SubstituteStep(a: string, key: string, b: string, repl: string) returns (r: string)
    requires |key| > 0 && key[0] == '{' && '{' !in a
    ensures r == ReplaceFirst(a + key + b, key, repl) && r == a + repl + b
  {
    ReplaceAfterPlainPrefix(a, key, b, repl);
    r := a + repl + b;
  }

  /** A hostname without placeholders is used as it is. */
  lemma PlainHostname(hostname: string, service: string, region: string, dnsSuffix: string)
    requires '{' !in hostname
    ensures Substitute(hostname, service, region, dnsSuffix) == hostname
  {
    ReplaceAbsent(hostname, "{service}", service);
    ReplaceAbsent(hostname, "{region}", region);
    ReplaceAbsent(hostname, "{dnsSuffix}", dnsSuffix);
  }

  // ---------------------------------------------------------------------
  // Resolving one endpoint

  /** The hostname pattern used: the dual-stack one when dual-stack is asked
      for and the endpoint has one. */
  function HostnamePattern(m: Endpoint, opts: Flags): string {
    if opts.useDualStack && m.hasDualStack == BoxedTrue then m.dualStackHostname else m.hostname
  }

  /** Builds the resolved endpoint of the merged entry `m` for a pair. */
  function ResolveMerged(m: Endpoint, service: string, region: string, dnsSuffix: string, opts: Flags): (r: ResolvedEndpoint)
    ensures HasPrefix(r.url, EndpointScheme(m.protocols, opts.disableSSL) + "://")
    ensures m.credentialScope.region == "" ==> r.signingRegion == region
    ensures m.credentialScope.region != "" ==> r.signingRegion == m.credentialScope.region
    ensures m.credentialScope.service == "" ==> r.signingName == service
    ensures m.credentialScope.service != "" ==> r.signingName == m.credentialScope.service
  {
    var host := Substitute(HostnamePattern(m, opts), service, region, dnsSuffix);
    var scheme := EndpointScheme(m.protocols, opts.disableSSL);
    var signingRegion := if m.credentialScope.region != "" then m.credentialScope.region else region;
    var signingName := if m.credentialScope.service != "" then m.credentialScope.service else service;
    assert (scheme + "://" + host)[..|scheme + "://"|] == scheme + "://";
    ResolvedEndpoint(scheme + "://" + host, signingRegion, signingName)
  }

  /** When SSL is disabled, or the endpoint prefers `https`, and the
      substituted host does not already start with a scheme, the URL is what
      AddScheme makes of that host. */
  lemma ResolvedUrlIsAddScheme(m: Endpoint, service: string, region: string, dnsSuffix: string, opts: Flags)
    requires !StartsWithScheme(Substitute(HostnamePattern(m, opts), service, region, dnsSuffix))
    requires opts.disableSSL || m.protocols == [] || "https" in m.protocols
    ensures ResolveMerged(m, service, region, dnsSuffix, opts).url ==
            AddScheme(Substitute(HostnamePattern(m, opts), service, region, dnsSuffix), opts.disableSSL)
  {
    var host := Substitute(HostnamePattern(m, opts), service, region, dnsSuffix);
    AddSchemeWithoutScheme(host, opts.disableSSL);
    assert (if opts.disableSSL then "http" else "https") + "://" + host
        == (if opts.disableSSL then "http://" else "https://") + host;
  }

  /** The explicit entry a service has for a region, and whether it has one.
      A service that is not regionalised answers every region with its
      partition-wide entry, but counts as explicit only for that entry's name. */
  function EndpointForRegion(s: Service, region: string): (Endpoint, bool) {
    if s.isRegionalized == BoxedFalse then
      (if s.partitionEndpoint in s.endpoints then s.endpoints[s.partitionEndpoint] else BlankEndpoint,
       region == s.partitionEndpoint)
    else if region in s.endpoints then (s.endpoints[region], true)
    else (BlankEndpoint, false)
  }

  /** The merged entry a partition resolves a pair through. */
  function EntryFor(p: Partition, service: string, region: string): Endpoint
    requires service in p.services
  {
    var s := p.services[service];
    Merged(p.defaults, s.defaults, EndpointForRegion(s, region).0)
  }

  /** Resolution within one partition. */
  function PartitionEndpointFor(p: Partition, service: string, region: string, opts: seq<Override>): (r: Result<ResolvedEndpoint>)
    ensures (r.Err? && r.error.UnknownServiceError?) <==> service !in p.services
    ensures (r.Err? && r.error.UnknownEndpointError?) <==>
              service in p.services && ApplyAll(NoOverrides, opts).strictMatching
              && !EndpointForRegion(p.services[service], region).1
    ensures r.Err? ==> r.error.partition == p.id && r.error.service == service
  {
    var opt := ApplyAll(NoOverrides, opts);
    if service !in p.services then Err(UnknownServiceError(p.id, service))
    else if !EndpointForRegion(p.services[service], region).1 && opt.strictMatching then
      Err(UnknownEndpointError(p.id, service, region))
    else Ok(ResolveMerged(EntryFor(p, service, region), service, region, p.dnsSuffix, opt))
  }

  /** A pair whose merged entry uses the standard pattern, prefers `https`
      and sets no credential scope resolves to
      `https://<service>.<region>.<dnsSuffix>`, signed for that region and
      service, as long as SSL stays on and no dual-stack variant is chosen. */
  lemma StandardResolution(p: Partition, service: string, region: string, opts: seq<Override>)
    requires service in p.services
    requires !ApplyAll(NoOverrides, opts).strictMatching || EndpointForRegion(p.services[service], region).1
    requires !ApplyAll(NoOverrides, opts).disableSSL && !ApplyAll(NoOverrides, opts).useDualStack
    requires EntryFor(p, service, region).hostname == StandardPattern
    requires EntryFor(p, service, region).protocols == [] || "https" in EntryFor(p, service, region).protocols
    requires EntryFor(p, service, region).credentialScope == CredentialScope("", "")
    requires '{' !in service && '{' !in region
    ensures PartitionEndpointFor(p, service, region, opts)
         == Ok(ResolvedEndpoint("https://" + (service + "." + region + "." + p.dnsSuffix), region, service))
  {
    var opt := ApplyAll(NoOverrides, opts);
    var m := EntryFor(p, service, region);
    StandardUrl(m, service, region, p.dnsSuffix, opt);
    assert PartitionEndpointFor(p, service, region, opts) == Ok(ResolveMerged(m, service, region, p.dnsSuffix, opt));
  }

  /** The resolved endpoint of a merged entry on the standard pattern: the
      chosen scheme followed by `<service>.<region>.<dnsSuffix>`, for `http`
      entries as well as `https` ones; with `https` chosen and no credential
      scope, the whole endpoint. */
  lemma StandardUrl(m: Endpoint, service: string, region: string, dnsSuffix: string, opt: Flags)
    requires m.hostname == StandardPattern && !opt.useDualStack
    requires '{' !in service && '{' !in region
    ensures ResolveMerged(m, service, region, dnsSuffix, opt).url
         == EndpointScheme(m.protocols, opt.disableSSL) + "://" + (service + "." + region + "." + dnsSuffix)
    ensures !opt.disableSSL && (m.protocols == [] || "https" in m.protocols)
            && m.credentialScope == CredentialScope("", "") ==>
              ResolveMerged(m, service, region, dnsSuffix, opt)
              == ResolvedEndpoint("https://" + (service + "." + region + "." + dnsSuffix), region, service)
  {
    assert HostnamePattern(m, opt) == StandardPattern;
    StandardHostname(service, region, dnsSuffix);
    assert "https" + "://" == "https://";
  }

  /** Without strict matching, every service the partition declares resolves
      in every region; it is signed for the entry's credential scope where
      that sets a region or service, and for the pair asked for otherwise. */
  lemma LooseResolutionSucceeds(p: Partition, service: string, region: string, opts: seq<Override>)
    requires service in p.services && !ApplyAll(NoOverrides, opts).strictMatching
    ensures PartitionEndpointFor(p, service, region, opts).Ok?
    ensures var scope := EntryFor(p, service, region).credentialScope;
      PartitionEndpointFor(p, service, region, opts).value.signingRegion
        == (if scope.region != "" then scope.region else region)
    ensures var scope := EntryFor(p, service, region).credentialScope;
      PartitionEndpointFor(p, service, region, opts).value.signingName
        == (if scope.service != "" then scope.service else service)
  {
  }

  // ---------------------------------------------------------------------
  // Resolution over a table of partitions

  /** A partition can resolve a pair when it has an explicit entry for it,
      or, under loose matching, when it declares the region. */
  predicate CanResolveEndpoint(p: Partition, service: string, region: string, strict: bool) {
    (service in p.services && region in p.services[service].endpoints)
    || (!strict && region in p.regions)
  }

  /** The index of the first partition that can resolve the pair. */
  function SelectPartition(ps: seq<Partition>, service: string, region: string, strict: bool): (r: Option<nat>)
    ensures r.Some? ==> r.value < |ps| && CanResolveEndpoint(ps[r.value], service, region, strict)
    ensures r.Some? ==> forall j :: 0 <= j < r.value ==> !CanResolveEndpoint(ps[j], service, region, strict)
    ensures r.None? ==> forall j :: 0 <= j < |ps| ==> !CanResolveEndpoint(ps[j], service, region, strict)
    decreases |ps|
  {
    if ps == [] then None
    else if CanResolveEndpoint(ps[0], service, region, strict) then Some(0)
    else
      match SelectPartition(ps[1..], service, region, strict)
      case None => None
      case Some(i) => Some(i + 1)
  }

  /** Resolution over the whole table: the first partition that can resolve
      the pair does; under loose matching the first partition is the fallback. */
  function PartitionsEndpointFor(ps: seq<Partition>, service: string, region: string, opts: seq<Override>): (r: Result<ResolvedEndpoint>)
    ensures r == Err(UnknownEndpointError(AllPartitions, service, region))
            || exists i :: 0 <= i < |ps| && r == PartitionEndpointFor(ps[i], service, region, opts)
    ensures (forall j :: 0 <= j < |ps| ==> !CanResolveEndpoint(ps[j], service, region, ApplyAll(NoOverrides, opts).strictMatching))
            && (ApplyAll(NoOverrides, opts).strictMatching || |ps| == 0)
            ==> r == Err(UnknownEndpointError(AllPartitions, service, region))
  {
    var opt := ApplyAll(NoOverrides, opts);
    match SelectPartition(ps, service, region, opt.strictMatching)
    case Some(i) => PartitionEndpointFor(ps[i], service, region, opts)
    case None =>
      if !opt.strictMatching && |ps| > 0 then PartitionEndpointFor(ps[0], service, region, opts)
      else Err(UnknownEndpointError(AllPartitions, service, region))
  }

  /** The table answers as its first partition able to resolve the pair does. */
  lemma TableDelegatesToOwner(ps: seq<Partition>, service: string, region: string, opts: seq<Override>, i: nat)
    requires i < |ps|
    requires CanResolveEndpoint(ps[i], service, region, ApplyAll(NoOverrides, opts).strictMatching)
    requires forall j :: 0 <= j < i ==> !CanResolveEndpoint(ps[j], service, region, ApplyAll(NoOverrides, opts).strictMatching)
    ensures PartitionsEndpointFor(ps, service, region, opts) == PartitionEndpointFor(ps[i], service, region, opts)
  {
    var sel := SelectPartition(ps, service, region, ApplyAll(NoOverrides, opts).strictMatching);
    assert sel.Some?;
    assert sel.value == i;
  }

  /** When no partition can resolve the pair, loose matching falls back to the
      first partition and strict matching fails with an unknown endpoint. */
  lemma TableWithoutOwner(ps: seq<Partition>, service: string, region: string, opts: seq<Override>)
    requires forall j :: 0 <= j < |ps| ==> !CanResolveEndpoint(ps[j], service, region, ApplyAll(NoOverrides, opts).strictMatching)
    ensures !ApplyAll(NoOverrides, opts).strictMatching && |ps| > 0 ==>
              PartitionsEndpointFor(ps, service, region, opts) == PartitionEndpointFor(ps[0], service, region, opts)
    ensures ApplyAll(NoOverrides, opts).strictMatching || |ps| == 0 ==>
              PartitionsEndpointFor(ps, service, region, opts) == Err(UnknownEndpointError(AllPartitions, service, region))
  {
  }
}
