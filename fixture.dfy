/** The small partition table the enumeration and resolution tests run
    against, and what those tests assert about it. */
module TestTable {
  import opened EndpointOptions
  import opened PartitionModel
  import opened Enumeration

  const DnsSuffix := "amazonaws.com"

  const PartitionDefaults :=
    Endpoint(StandardPattern, ["https"], CredentialScope("", ""), Unset, "")

  const Service1 := Service("", Unset, BlankEndpoint, map[
    "us-east-1" := BlankEndpoint,
    "us-west-2" := Endpoint("", [], CredentialScope("", ""), BoxedTrue,
                            ServiceKey + ".dualstack." + RegionKey + "." + DnsSuffixKey)])

  const HttpService := Service("", Unset, Endpoint("", ["http"], CredentialScope("", ""), Unset, ""), map[])

  const GlobalService := Service("aws-global", BoxedFalse, BlankEndpoint, map[
    "aws-global" := Endpoint("globalService.amazonaws.com", [], CredentialScope("us-east-1", ""), Unset, "")])

  /** One partition, `part-id`, with two regions and five services. */
  const TestPartition := Partition(
    "part-id", "partitionName", DnsSuffix, PartitionDefaults,
    map["us-east-1" := Region("region description"), "us-west-2" := Region("")],
    map["s3" := Service("", Unset, BlankEndpoint, map[]),
        "service1" := Service1,
        "service2" := Service("", Unset, BlankEndpoint, map[]),
        "httpService" := HttpService,
        "globalService" := GlobalService])

  const TestPartitions := [TestPartition]

  /** The entry `service1` resolves through in either of its regions: the
      partition's standard pattern over `https`, with no credential scope. */
  lemma Service1Entry(region: string)
    requires region == "us-east-1" || region == "us-west-2"
    ensures "service1" in TestPartition.services
    ensures EndpointForRegion(TestPartition.services["service1"], region).1
    ensures EntryFor(TestPartition, "service1", region).hostname == StandardPattern
    ensures EntryFor(TestPartition, "service1", region).protocols == ["https"]
    ensures EntryFor(TestPartition, "service1", region).credentialScope == CredentialScope("", "")
  {
    assert TestPartition.services["service1"] == Service1;
    var e := Service1.endpoints[region];
    assert e.hostname == "" && e.protocols == [] && e.credentialScope == CredentialScope("", "");
    LayerPrecedence(PartitionDefaults, BlankEndpoint, e);
  }

  /** `service1` resolves, in either of its regions, to
      `https://service1.<region>.amazonaws.com`, signed for that region. */
  lemma Service1Resolves(region: string)
    requires region == "us-east-1" || region == "us-west-2"
    ensures PartitionEndpointFor(TestPartition, "service1", region, [])
         == Ok(ResolvedEndpoint("https://service1." + region + ".amazonaws.com", region, "service1"))
  {
    Service1Entry(region);
    assert ApplyAll(NoOverrides, []) == NoOverrides;
    StandardResolution(TestPartition, "service1", region, []);
    Service1Host(region);
  }

  lemma Service1Host(region: string)
    ensures "https://" + ("service1" + "." + region + "." + DnsSuffix) == "https://service1." + region + ".amazonaws.com"
  {
    var scheme := "https://";
    assert scheme + ("service1" + "." + region + "." + DnsSuffix)
        == (scheme + "service1" + ".") + region + ("." + DnsSuffix);
    assert scheme + "service1" + "." == "https://service1.";
    assert "." + DnsSuffix == ".amazonaws.com";
  }

  lemma Service1EastUrl()
    ensures "https://service1." + "us-east-1" + ".amazonaws.com" == "https://service1.us-east-1.amazonaws.com"
  {
  }

  lemma Service1WestUrl()
    ensures "https://service1." + "us-west-2" + ".amazonaws.com" == "https://service1.us-west-2.amazonaws.com"
  {
  }

  /** The table has the one partition; its ID is `part-id` and its service
      map has as many entries as it declares. */
  lemma EnumPartitionServicesTest()
    ensures |Partitions(TestPartitions)| == |TestPartitions|
    ensures Partitions(TestPartitions)[0].ID() == "part-id"
    ensures |Partitions(TestPartitions)[0].Services()| == |TestPartition.services|
  {
    ServicesMatchTable(Partitions(TestPartitions)[0]);
  }

  /** `part-id` has regions `us-east-1` and `us-west-2`; only `service1` has
      an entry for `us-east-1`, and resolving it there through the region view
      gives `https://service1.us-east-1.amazonaws.com`. */
  lemma EnumRegionServicesTest()
    ensures var rs := Partitions(TestPartitions)[0].Regions();
      && |rs| == 2 && "us-east-1" in rs && "us-west-2" in rs
      && rs["us-east-1"].ID() == "us-east-1"
      && |rs["us-east-1"].Services()| == 1 && "service1" in rs["us-east-1"].Services()
      && rs["us-east-1"].ResolveEndpoint("service1", []).Ok?
      && rs["us-east-1"].ResolveEndpoint("service1", []).value.url == "https://service1.us-east-1.amazonaws.com"
  {
    var pv := Partitions(TestPartitions)[0];
    assert pv.p == TestPartition;
    RegionsMatchTable(pv);
    assert |TestPartition.regions| == 2;
    var rv := pv.Regions()["us-east-1"];
    assert rv == RegionView("us-east-1", TestPartition);
    assert rv.Services().Keys == {"service1"} by {
      assert "us-east-1" !in TestPartition.services["s3"].endpoints;
      assert "us-east-1" !in TestPartition.services["service2"].endpoints;
      assert "us-east-1" !in TestPartition.services["httpService"].endpoints;
      assert "us-east-1" !in TestPartition.services["globalService"].endpoints;
      assert "us-east-1" in TestPartition.services["service1"].endpoints;
    }
    assert |rv.Services().Keys| == 1;
    Service1Resolves("us-east-1");
    Service1EastUrl();
  }

  /** `part-id` has five services, among them `service1` and `service2`;
      resolving `service1` through its service view for `us-west-2` gives
      `https://service1.us-west-2.amazonaws.com`. */
  lemma EnumServicesEndpointsTest()
    ensures var ss := Partitions(TestPartitions)[0].Services();
      && |ss| == 5 && "service1" in ss && "service2" in ss
      && ss["service1"].ID() == "service1"
      && ss["service1"].ResolveEndpoint("us-west-2", []).Ok?
      && ss["service1"].ResolveEndpoint("us-west-2", []).value.url == "https://service1.us-west-2.amazonaws.com"
  {
    var pv := Partitions(TestPartitions)[0];
    assert pv.p == TestPartition;
    ServicesMatchTable(pv);
    assert |TestPartition.services| == 5;
    Service1Resolves("us-west-2");
    Service1WestUrl();
  }

  /** `service1` has two endpoints; the `us-east-1` one knows its ID and its
      service, and resolves to `https://service1.us-east-1.amazonaws.com`. */
  lemma EnumEndpointsTest()
    ensures var es := Partitions(TestPartitions)[0].Services()["service1"].Endpoints();
      && |es| == 2 && "us-east-1" in es
      && es["us-east-1"].ID() == "us-east-1" && es["us-east-1"].ServiceID() == "service1"
      && es["us-east-1"].ResolveEndpoint([]).Ok?
      && es["us-east-1"].ResolveEndpoint([]).value.url == "https://service1.us-east-1.amazonaws.com"
  {
    var pv := Partitions(TestPartitions)[0];
    assert pv.p == TestPartition;
    ServicesMatchTable(pv);
    var sv := pv.Services()["service1"];
    assert sv == ServiceView("service1", TestPartition);
    EndpointsMatchTable(sv);
    assert |Service1.endpoints| == 2;
    Service1Resolves("us-east-1");
    Service1EastUrl();
  }

  /** Resolving through the partition's view gives the same endpoint as
      resolving through the whole table. */
  lemma ResolveEndpointForPartitionTest()
    ensures Partitions(TestPartitions)[0].EndpointFor("service1", "us-east-1", [])
         == PartitionsEndpointFor(TestPartitions, "service1", "us-east-1", [])
    ensures PartitionsEndpointFor(TestPartitions, "service1", "us-east-1", []).Ok?
  {
    assert CanResolveEndpoint(TestPartition, "service1", "us-east-1", ApplyAll(NoOverrides, []).strictMatching);
    FirstPartitionAgreesWithTable(TestPartitions, "service1", "us-east-1", []);
    Service1Resolves("us-east-1");
    Service1EastUrl();
  }
}
