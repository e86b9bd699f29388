/** Read-only views over a partition table: partitions, their regions and
    services, and a service's endpoints, each able to resolve the pair it
    stands for through the partition's own resolution. */
module Enumeration {
  import opened EndpointOptions
  import opened PartitionModel

  /** A view of one partition. */
  datatype PartitionView = PartitionView(p: Partition) {
    function ID(): string {
      p.id
    }

    /** Every declared region, keyed by its ID. */
    function Regions(): map<string, RegionView> {
      map id | id in p.regions :: RegionView(id, p)
    }

    /** Every declared service, keyed by its ID. */
    function Services(): map<string, ServiceView> {
      map id | id in p.services :: ServiceView(id, p)
    }

    function EndpointFor(service: string, region: string, opts: seq<Override>): Result<ResolvedEndpoint> {
      PartitionEndpointFor(p, service, region, opts)
    }
  }

  /** A view of one region of a partition. */
  datatype RegionView = RegionView(id: string, p: Partition) {
    function ID(): string {
      id
    }

    function Description(): string {
      if id in p.regions then p.regions[id].description else ""
    }

    /** The services that have an explicit entry for this region. */
    function Services(): map<string, ServiceView> {
      map sid | sid in p.services && id in p.services[sid].endpoints :: ServiceView(sid, p)
    }

    function ResolveEndpoint(service: string, opts: seq<Override>): Result<ResolvedEndpoint> {
      PartitionEndpointFor(p, service, id, opts)
    }
  }

  /** A view of one service of a partition. */
  datatype ServiceView = ServiceView(id: string, p: Partition) {
    function ID(): string {
      id
    }

    /** The service's explicit entries, keyed by region ID. */
    function Endpoints(): map<string, EndpointView> {
      map rid | id in p.services && rid in p.services[id].endpoints :: EndpointView(rid, id, p)
    }

    function ResolveEndpoint(region: string, opts: seq<Override>): Result<ResolvedEndpoint> {
      PartitionEndpointFor(p, id, region, opts)
    }
  }

  /** A view of one explicit endpoint entry of a service. */
  datatype EndpointView = EndpointView(id: string, serviceID: string, p: Partition) {
    function ID(): string {
      id
    }

    function ServiceID(): string {
      serviceID
    }

    function ResolveEndpoint(opts: seq<Override>): Result<ResolvedEndpoint> {
      PartitionEndpointFor(p, serviceID, id, opts)
    }
  }

  /** One view per partition of the table, in table order. */
  function Partitions(ps: seq<Partition>): (views: seq<PartitionView>)
    ensures |views| == |ps|
    ensures forall i :: 0 <= i < |ps| ==> views[i].p == ps[i] && views[i].ID() == ps[i].id
  {
    if ps == [] then [] else [PartitionView(ps[0])] + Partitions(ps[1..])
  }

  /** A partition's region map has exactly its declared regions as keys, each
      view's ID is its key, and so the map has as many entries as the
      partition declares regions. */
  lemma RegionsMatchTable(pv: PartitionView)
    ensures pv.Regions().Keys == pv.p.regions.Keys
    ensures |pv.Regions()| == |pv.p.regions|
    ensures forall id :: id in pv.Regions() ==> pv.Regions()[id].ID() == id && pv.Regions()[id].p == pv.p
  {
    assert pv.Regions().Keys == pv.p.regions.Keys;
  }

  /** The same for a partition's services. */
  lemma ServicesMatchTable(pv: PartitionView)
    ensures pv.Services().Keys == pv.p.services.Keys
    ensures |pv.Services()| == |pv.p.services|
    ensures forall id :: id in pv.Services() ==> pv.Services()[id].ID() == id && pv.Services()[id].p == pv.p
  {
    assert pv.Services().Keys == pv.p.services.Keys;
  }

  /** A region lists exactly the services that have an entry for it, so no
      more than the partition declares. */
  lemma RegionServicesAvailable(rv: RegionView)
    ensures forall sid :: sid in rv.Services() <==> sid in rv.p.services && rv.id in rv.p.services[sid].endpoints
    ensures forall sid :: sid in rv.Services() ==> rv.Services()[sid].ID() == sid
    ensures |rv.Services()| <= |rv.p.services|
  {
    var ks := rv.Services().Keys;
    assert ks <= rv.p.services.Keys;
    SubsetCardinality(ks, rv.p.services.Keys);
  }

  lemma {:induction false} SubsetCardinality<T>(a: set<T>, b: set<T>)
    requires a <= b
    ensures |a| <= |b|
    decreases |b|
  {
    if a != {} {
      var x :| x in a;
      SubsetCardinality(a - {x}, b - {x});
    }
  }

  /** A service's endpoint map has exactly its explicit entries as keys; each
      view's ID is its key and its service ID is the owning service. */
  lemma EndpointsMatchTable(sv: ServiceView)
    requires sv.id in sv.p.services
    ensures sv.Endpoints().Keys == sv.p.services[sv.id].endpoints.Keys
    ensures |sv.Endpoints()| == |sv.p.services[sv.id].endpoints|
    ensures forall rid :: rid in sv.Endpoints() ==>
              sv.Endpoints()[rid].ID() == rid && sv.Endpoints()[rid].ServiceID() == sv.id
  {
    assert sv.Endpoints().Keys == sv.p.services[sv.id].endpoints.Keys;
  }

  /** Resolving through a region view, a service view or an endpoint view of
      a partition gives what the partition gives for the same pair. */
  lemma ViewsAgreeWithPartition(pv: PartitionView, service: string, region: string, opts: seq<Override>)
    ensures region in pv.Regions() ==>
              pv.Regions()[region].ResolveEndpoint(service, opts) == pv.EndpointFor(service, region, opts)
    ensures service in pv.Services() ==>
              pv.Services()[service].ResolveEndpoint(region, opts) == pv.EndpointFor(service, region, opts)
    ensures service in pv.Services() && region in pv.Services()[service].Endpoints() ==>
              pv.Services()[service].Endpoints()[region].ResolveEndpoint(opts) == pv.EndpointFor(service, region, opts)
  {
  }

  /** The view of the first partition answers as the whole table does when
      that partition can resolve the pair, or when none can and matching is
      loose. */
  lemma FirstPartitionAgreesWithTable(ps: seq<Partition>, service: string, region: string, opts: seq<Override>)
    requires |ps| > 0
    requires CanResolveEndpoint(ps[0], service, region, ApplyAll(NoOverrides, opts).strictMatching)
             || (!ApplyAll(NoOverrides, opts).strictMatching
                 && forall j :: 0 <= j < |ps| ==> !CanResolveEndpoint(ps[j], service, region, false))
    ensures Partitions(ps)[0].EndpointFor(service, region, opts) == PartitionsEndpointFor(ps, service, region, opts)
  {
    if CanResolveEndpoint(ps[0], service, region, ApplyAll(NoOverrides, opts).strictMatching) {
      TableDelegatesToOwner(ps, service, region, opts, 0);
    } else {
      TableWithoutOwner(ps, service, region, opts);
    }
  }
}
