# Endpoint resolution engine of the AWS SDK `endpoints` package

This project models the endpoint resolver that awslambdaproxy vendors from
the AWS SDK for Go (`aws/endpoints`), and proves what its test suite asserts.
Given a service ID and a region ID, the engine looks the pair up in a fixed
metadata table. It returns the URL to call, plus the signing region and
signing name that a request signer needs.

- **Table** (`model.dfy`, module `PartitionModel`). A table is a sequence of
  partitions. Each partition has regions and services, and each service has
  explicit endpoint entries keyed by region.
- **Resolution** (`model.dfy`). A pair resolves through three merged layers.
  Partition defaults come first, then service defaults, then the explicit
  entry, and each field set in a later layer wins.
  - The placeholders `{service}`, `{region}` and `{dnsSuffix}` are filled in
    with the first-occurrence replacement of `text.dfy`.
  - The scheme is `http` when SSL is disabled. Otherwise it is the entry's
    preferred protocol: `https` over `http`, and `https` when the entry lists
    none.
  - The signing region and name fall back to the pair asked for.
  - A pair resolves in the first partition of the table that can resolve it.
    Under loose matching, the first partition is the fallback.
- **Errors** are values, not preconditions:
  - `UnknownServiceError` when the partition does not declare the service;
  - `UnknownEndpointError` when strict matching finds no explicit entry;
  - `UnknownEndpointError("all partitions", …)` when no partition qualifies.
- **Options** (`options.dfy`). `Flags` is the value of an options record.
  - An override is a function `Flags -> Flags`.
  - `DisableSSLOption`, `UseDualStackOption` and `StrictMatchingOption` are
    the named overrides.
  - The class `Options` holds the three mutable flags. Its method `Set`
    applies a list of overrides in place, in argument order, and is proved
    against the function `ApplyAll`.
- **Enumeration** (`enumeration.dfy`). There are value views for partitions,
  regions, services and endpoints, and each has its `ID()`.
  - A partition view has keyed maps of its regions and services, and
    `EndpointFor`.
  - A region view has a keyed map of the services with an entry for it, and
    a service view a keyed map of its endpoints.
  - Region, service and endpoint views have a `ResolveEndpoint` shortcut
    that goes through the partition's resolution.
- **Resolver capability** (`resolvers.dfy`). A resolver is either the
  table-backed engine or a function value wrapped by `ResolverFunc`.
  `EnumPartitions` is the optional enumeration capability, and only the
  table-backed engine has it.
- **AddScheme** (`urls.dfy`) gives an endpoint string a scheme when it has
  none.
- **Test table** (`fixture.dfy`). The table the enumeration tests run
  against has one partition, `part-id`, with the following contents:
  - two regions, `us-east-1` and `us-west-2`;
  - five services;
  - `service1`, with entries for both regions;
  - DNS suffix `amazonaws.com`, and the pattern
    `{service}.{region}.{dnsSuffix}` over `https`.

Three behaviours of the engine worth knowing:

- `service1` of the test table has two explicit endpoints, `us-east-1` and
  `us-west-2` (endpoints_test.go:123).
- `DisableSSL` wins over an entry's protocol list: with it set, the scheme
  is `http` even for an entry that lists only `https` (`EndpointScheme`).
- When no partition qualifies under strict matching, or the table is empty,
  the error is `UnknownEndpointError("all partitions", service, region)`.

## Model

| member | source | states |
|---|---|---|
| Urls.AddScheme | vendor/github.com/aws/aws-sdk-go/aws/endpoints/endpoints_test.go:163-198 | the result always carries a scheme and ends with the input string |
| Urls.HasSchemeIff | vendor/github.com/aws/aws-sdk-go/aws/endpoints/endpoints_test.go:169-190 | the scan AddScheme uses accepts exactly the strings that begin with an RFC 3986 scheme name followed by `://` |
| Urls.AddSchemeKeepsHttps | vendor/github.com/aws/aws-sdk-go/aws/endpoints/endpoints_test.go:169-190 | input starting with `https://` comes back unchanged, with SSL on or off |
| Urls.AddSchemeKeepsScheme | vendor/github.com/aws/aws-sdk-go/aws/endpoints/endpoints_test.go:169-190 | any string that already starts with an RFC 3986 scheme and `://` comes back unchanged, with SSL on or off |
| Urls.AddSchemeKeepsHttp | vendor/github.com/aws/aws-sdk-go/aws/endpoints/endpoints_test.go:177-180 | input starting with `http://` comes back unchanged, with SSL on or off |
| Urls.AddSchemeWithoutScheme | vendor/github.com/aws/aws-sdk-go/aws/endpoints/endpoints_test.go:173-185 | any string that does not start with a scheme, `host:port` included, gets `https://`, or `http://` when SSL is disabled |
| Urls.AddSchemeIdempotent | vendor/github.com/aws/aws-sdk-go/aws/endpoints/endpoints_test.go:193-198 | applying AddScheme to its own output changes nothing, whatever flag the second call gets |
| Urls.AddSchemeTestCases | vendor/github.com/aws/aws-sdk-go/aws/endpoints/endpoints_test.go:163-198 | the five input/flag/expected rows of the AddScheme test table |
| EndpointOptions.ApplyAllAppend | vendor/github.com/aws/aws-sdk-go/aws/endpoints/endpoints_test.go:231-233 | applying two override lists in a row equals applying their concatenation at once |
| EndpointOptions.ApplyNamed | vendor/github.com/aws/aws-sdk-go/aws/endpoints/endpoints_test.go:231-244 | named overrides turn on exactly the flags they name and keep the others |
| EndpointOptions.NamedOrderIrrelevant | vendor/github.com/aws/aws-sdk-go/aws/endpoints/endpoints_test.go:233-233 | lists naming the same overrides give the same options, whatever the order or repetition |
| EndpointOptions.Options.constructor | vendor/github.com/aws/aws-sdk-go/aws/endpoints/endpoints_test.go:232-232 | a new record is the zero value: all three flags false |
| EndpointOptions.Options.Set | vendor/github.com/aws/aws-sdk-go/aws/endpoints/endpoints_test.go:232-233 | the record's new value is its old value with the overrides applied in argument order |
| EndpointOptions.SetAllOptions | vendor/github.com/aws/aws-sdk-go/aws/endpoints/endpoints_test.go:231-244 | setting the three named overrides on a zero record makes all three flags true |
| PartitionModel.MergeInBlankAndTwice | vendor/github.com/aws/aws-sdk-go/aws/endpoints/endpoints_test.go:138-145 | merging a blank entry changes nothing, and merging a layer twice is merging it once |
| PartitionModel.LayerPrecedence | vendor/github.com/aws/aws-sdk-go/aws/endpoints/endpoints_test.go:108-115 | for each field, the explicit entry wins over the service defaults, which win over the partition defaults |
| PartitionModel.FirstByPriority | vendor/github.com/aws/aws-sdk-go/aws/endpoints/endpoints_test.go:82-82 | the result is one of the listed protocols: the most preferred one listed, or the first listed when none is preferred |
| PartitionModel.EndpointScheme | vendor/github.com/aws/aws-sdk-go/aws/endpoints/endpoints_test.go:77-84 | `http` when SSL is disabled; otherwise `https` when the entry lists it or lists nothing, then `http`, then the entry's first protocol |
| PartitionModel.StandardHostname | vendor/github.com/aws/aws-sdk-go/aws/endpoints/endpoints_test.go:82-84 | the pattern `{service}.{region}.{dnsSuffix}` becomes `<service>.<region>.<dnsSuffix>` |
| PartitionModel.PlainHostname | vendor/github.com/aws/aws-sdk-go/aws/endpoints/endpoints_test.go:77-84 | a hostname without placeholders is used as written |
| PartitionModel.ResolveMerged | vendor/github.com/aws/aws-sdk-go/aws/endpoints/endpoints_test.go:77-84 | the URL starts with the chosen scheme and `://`; the signing region and name are the credential scope's where set, and the requested pair's otherwise |
| PartitionModel.ResolvedUrlIsAddScheme | vendor/github.com/aws/aws-sdk-go/aws/endpoints/endpoints_test.go:193-198 | when the substituted host does not already start with a scheme, and SSL is disabled or `https` is preferred, the resolved URL is AddScheme of that host |
| PartitionModel.PartitionEndpointFor | vendor/github.com/aws/aws-sdk-go/aws/endpoints/endpoints_test.go:148-161 | fails with an unknown service exactly when the partition lacks the service, and with an unknown endpoint exactly when strict matching finds no explicit entry |
| PartitionModel.StandardResolution | vendor/github.com/aws/aws-sdk-go/aws/endpoints/endpoints_test.go:77-84 | a pair resolved through the standard pattern over `https` gives `https://<service>.<region>.<dnsSuffix>`, signed for that region and service |
| PartitionModel.StandardUrl | vendor/github.com/aws/aws-sdk-go/aws/endpoints/endpoints_test.go:108-115 | a merged entry on the standard pattern resolves to the chosen scheme, `://` and `<service>.<region>.<dnsSuffix>`, so an `http`-only entry gives `http://…`; with `https` and no credential scope, the whole endpoint signed for the requested pair |
| PartitionModel.LooseResolutionSucceeds | vendor/github.com/aws/aws-sdk-go/aws/endpoints/endpoints_test.go:108-115 | under loose matching, every declared service resolves in every region, signed for the entry's credential scope where set and for the requested pair otherwise |
| PartitionModel.SelectPartition | vendor/github.com/aws/aws-sdk-go/aws/endpoints/endpoints_test.go:148-161 | the result is the first partition that can resolve the pair, or none when no partition can |
| PartitionModel.PartitionsEndpointFor | vendor/github.com/aws/aws-sdk-go/aws/endpoints/endpoints_test.go:148-161 | the table answers with one of its partitions' own answers or with the `all partitions` failure, and with that failure whenever no partition qualifies and matching is strict or the table empty (full case split: TableDelegatesToOwner, TableWithoutOwner) |
| PartitionModel.TableDelegatesToOwner | vendor/github.com/aws/aws-sdk-go/aws/endpoints/endpoints_test.go:151-153 | the table answers exactly as its first partition able to resolve the pair does |
| PartitionModel.TableWithoutOwner | vendor/github.com/aws/aws-sdk-go/aws/endpoints/endpoints_test.go:151-151 | with no owning partition, loose matching falls back to the first partition; strict matching or an empty table fails for `all partitions` |
| Enumeration.Partitions | vendor/github.com/aws/aws-sdk-go/aws/endpoints/endpoints_test.go:13-15 | one view per partition, in table order, each with its partition's ID |
| Enumeration.RegionsMatchTable | vendor/github.com/aws/aws-sdk-go/aws/endpoints/endpoints_test.go:20-28 | the region map has the declared regions as keys and as many entries, and each view's ID is its key |
| Enumeration.ServicesMatchTable | vendor/github.com/aws/aws-sdk-go/aws/endpoints/endpoints_test.go:31-43 | the service map has the declared services as keys and as many entries, and each view's ID is its key |
| Enumeration.RegionServicesAvailable | vendor/github.com/aws/aws-sdk-go/aws/endpoints/endpoints_test.go:68-75 | a region lists a service exactly when the service has an entry for it, so it lists no more services than the partition |
| Enumeration.EndpointsMatchTable | vendor/github.com/aws/aws-sdk-go/aws/endpoints/endpoints_test.go:122-136 | the endpoint map has the service's entries as keys and as many entries; each view's ID is its key and its ServiceID the owner |
| Enumeration.ViewsAgreeWithPartition | vendor/github.com/aws/aws-sdk-go/aws/endpoints/endpoints_test.go:77-145 | region, service and endpoint views resolve a pair as their partition does |
| Enumeration.FirstPartitionAgreesWithTable | vendor/github.com/aws/aws-sdk-go/aws/endpoints/endpoints_test.go:148-161 | the first partition's view answers as the whole table does when it owns the pair, or when none does and matching is loose |
| Resolvers.EnumPartitions | vendor/github.com/aws/aws-sdk-go/aws/endpoints/endpoints_test.go:6-13 | only the table-backed resolver offers enumeration, with one view per partition |
| Resolvers.EnumDefaultPartitions | vendor/github.com/aws/aws-sdk-go/aws/endpoints/endpoints_test.go:5-17 | the default resolver enumerates as many partitions as its table holds, in order and with their IDs |
| Resolvers.DefaultResolver | vendor/github.com/aws/aws-sdk-go/aws/endpoints/endpoints_test.go:5-17 | the default resolver answers every request as table resolution over its table does |
| Resolvers.EndpointFor | vendor/github.com/aws/aws-sdk-go/aws/endpoints/endpoints_test.go:201-229 | the table-backed resolver answers with one of its partitions' answers or the `all partitions` failure; a wrapped function's answer is returned as it is (see ResolverFuncIgnoresOverrides) |
| Resolvers.ResolverFuncIgnoresOverrides | vendor/github.com/aws/aws-sdk-go/aws/endpoints/endpoints_test.go:201-229 | a wrapped function's answer comes back unchanged, whatever overrides are passed |
| Resolvers.WrappedEngineAgrees | vendor/github.com/aws/aws-sdk-go/aws/endpoints/endpoints_test.go:201-204 | wrapping the engine's resolution as a function gives a resolver that answers as the engine does |
| Resolvers.ResolverFuncTest | vendor/github.com/aws/aws-sdk-go/aws/endpoints/endpoints_test.go:201-229 | the stub's URL, signing region and signing name come back unchanged under `DisableSSL` |
| TestTable.Service1Entry | vendor/github.com/aws/aws-sdk-go/aws/endpoints/endpoints_test.go:118-128 | `service1` has an explicit entry in both regions, which resolves through the partition's standard pattern over `https` |
| TestTable.Service1Resolves | vendor/github.com/aws/aws-sdk-go/aws/endpoints/endpoints_test.go:77-145 | `service1` resolves to `https://service1.<region>.amazonaws.com` in both regions |
| TestTable.EnumPartitionServicesTest | vendor/github.com/aws/aws-sdk-go/aws/endpoints/endpoints_test.go:31-43 | the partition's ID is `part-id` and it enumerates as many services as it declares |
| TestTable.EnumRegionServicesTest | vendor/github.com/aws/aws-sdk-go/aws/endpoints/endpoints_test.go:46-85 | two regions; `us-east-1` lists only `service1`, which resolves there to the expected URL |
| TestTable.EnumServicesEndpointsTest | vendor/github.com/aws/aws-sdk-go/aws/endpoints/endpoints_test.go:87-116 | five services including `service1` and `service2`; `service1` resolves in `us-west-2` to the expected URL |
| TestTable.EnumEndpointsTest | vendor/github.com/aws/aws-sdk-go/aws/endpoints/endpoints_test.go:118-146 | `service1` has two endpoints; the `us-east-1` one has the right IDs and resolves to the expected URL |
| TestTable.ResolveEndpointForPartitionTest | vendor/github.com/aws/aws-sdk-go/aws/endpoints/endpoints_test.go:148-161 | the partition view and the table give the same successful resolution of `service1` in `us-east-1` |

## Left out

- The built-in AWS metadata table is not part of this model. It is a large
  generated table, so `DefaultResolver` takes its table as a parameter. The
  default-table tests (endpoints_test.go:5-29) are proved for any table.
- Partition selection checks region membership, not a regular expression.
  A partition qualifies under loose matching when it declares the region,
  not when the region matches the partition's region regular expression.
- `ResolvedEndpoint` has no `SigningMethod`. Go picks it from the entry's
  signature versions by the same priority rule `FirstByPriority` models for
  protocols, but no test modelled here reads it. So signature versions are
  left out, and so is the SSL common name, which no resolved field uses.
- Errors carry the partition, service and region. They do not carry the
  lists of known services or endpoints that the Go errors print.
- Overrides are pure functions from options to options. A Go override writes
  through a pointer; an override here cannot keep state of its own or see
  anything besides the options.
- PartitionModel.ResolvedUrlIsAddScheme: requires that the substituted host
  does not start with a scheme. Resolution always prefixes the scheme, while
  AddScheme keeps a scheme already present, so for a host such as
  `https://x` the two differ.
- Urls.AddScheme: a scheme is recognised as section 3.1 of RFC 3986 defines
  it. A test that accepts any colon-free prefix before `://` agrees on every
  input the tests use (`http://`, `https://`, bare hosts).
- Dual-stack hostnames are selected by `HostnamePattern`, but no test asserts
  a dual-stack URL, so no lemma states one.
- Determinism is not stated: every operation here is a function.
- The rest of awslambdaproxy is outside this model: Lambda invocation,
  tunnelling, the HTTP transport and request signing.
- The Go test harness (`testing.T`, its error reporting) is outside this model.
