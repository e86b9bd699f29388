/** The resolver capability: anything that answers `EndpointFor(service,
    region, overrides)`. The table-backed engine is one resolver; a plain
    function value wrapped by `ResolverFunc` is another. */
module Resolvers {
  import opened EndpointOptions
  import opened PartitionModel
  import opened Enumeration

  /** A resolution strategy given as a function value. */
  type ResolveFn = (string, string, seq<Override>) -> Result<ResolvedEndpoint>

  datatype Resolver =
    | TableResolver(ps: seq<Partition>)
    | ResolverFunc(fn: ResolveFn)

  /** The table-backed engine answers with the no-partition failure or with
      the answer of one of its partitions; a wrapped function answers for
      itself. */
  function EndpointFor(r: Resolver, service: string, region: string, opts: seq<Override>): (res: Result<ResolvedEndpoint>)
    ensures r.TableResolver? ==>
              res == Err(UnknownEndpointError(AllPartitions, service, region))
              || exists i :: 0 <= i < |r.ps| && res == PartitionEndpointFor(r.ps[i], service, region, opts)
    ensures r.ResolverFunc? ==> res == r.fn(service, region, opts)
  {
    match r
    case TableResolver(ps) => PartitionsEndpointFor(ps, service, region, opts)
    case ResolverFunc(fn) => fn(service, region, opts)
  }

  /** The engine over a caller-supplied table; the table stands in for the
      built-in metadata. */
  function DefaultResolver(table: seq<Partition>): (r: Resolver)
    ensures forall service, region, opts :: EndpointFor(r, service, region, opts) == PartitionsEndpointFor(table, service, region, opts)
  {
    TableResolver(table)
  }

  /** The optional enumeration capability: present on the table-backed
      engine, absent on a wrapped function. */
  function EnumPartitions(r: Resolver): (views: Option<seq<PartitionView>>)
    ensures r.TableResolver? <==> views.Some?
    ensures r.TableResolver? ==> |views.value| == |r.ps|
  {
    match r
    case TableResolver(ps) => Some(Partitions(ps))
    case ResolverFunc(_) => None
  }

  /** The default resolver offers enumeration, with one view per partition of
      its table, in table order. */
  lemma EnumDefaultPartitions(table: seq<Partition>)
    ensures EnumPartitions(DefaultResolver(table)).Some?
    ensures |EnumPartitions(DefaultResolver(table)).value| == |table|
    ensures forall i :: 0 <= i < |table| ==> EnumPartitions(DefaultResolver(table)).value[i].ID() == table[i].id
  {
  }

  /** A resolver function that ignores its overrides answers the same
      whatever overrides the caller passes, so an override such as
      `DisableSSLOption` does not rewrite the URL it returns. */
  lemma ResolverFuncIgnoresOverrides(answer: Result<ResolvedEndpoint>, service: string, region: string, opts: seq<Override>)
    ensures EndpointFor(ResolverFunc((s, r, o) => answer), service, region, opts) == answer
    ensures EndpointFor(ResolverFunc((s, r, o) => answer), service, region, opts)
         == EndpointFor(ResolverFunc((s, r, o) => answer), service, region, [])
  {
  }

  /** Wrapping the engine's own resolution in a function gives a resolver that
      answers exactly as the engine does. */
  lemma WrappedEngineAgrees(ps: seq<Partition>, service: string, region: string, opts: seq<Override>)
    ensures EndpointFor(ResolverFunc((s, r, o) => PartitionsEndpointFor(ps, s, r, o)), service, region, opts)
         == EndpointFor(TableResolver(ps), service, region, opts)
  {
  }

  /** The function-resolver test: the stub's URL and signing data come back
      unchanged although the caller disables SSL. */
  lemma ResolverFuncTest()
    ensures var stub := ResolvedEndpoint("https://service.region.dnssuffix.com", "region", "service");
      var resolver := ResolverFunc((s, r, o) => Ok(stub));
      var resolved := EndpointFor(resolver, "service", "region", [DisableSSLOption]);
      resolved.Ok? && resolved.value.url == "https://service.region.dnssuffix.com"
      && resolved.value.signingRegion == "region" && resolved.value.signingName == "service"
  {
  }
}
