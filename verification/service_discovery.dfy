/** `ServiceDiscovery::getServiceUrl`: asks the Consul health endpoint for the
    passing instances of a service, picks one, and formats its address as
    `http://address:port`. Every failure collapses to "no URL".

    The registry call and its JSON decoding are not modelled: their answer is
    the `RegistryReply` parameter. The random pick (`array_rand`) is the
    parameter `pick`, an arbitrary valid index. */
module ServiceDiscovery {
  import opened Wrappers
  import opened PhpText

  const HealthPath := "/v1/health/service/"
  const PassingFilter := "?passing=1"
  const Scheme := "http://"

  /** One decoded element of the registry's reply. A field is `None` when its
      key (`Service.Address`, `Service.Port`, `Node.Address`) is missing. */
  datatype Instance = Instance(serviceAddress: Option<string>, servicePort: Option<int>, nodeAddress: Option<string>)

  /** What `request(...)->toArray()` produced: a transport or HTTP error, a
      body that is not JSON, or the decoded list of instances. */
  datatype RegistryReply =
    | Unreachable(error: string)
    | Malformed(error: string)
    | Decoded(instances: seq<Instance>)

  /** The registry query that was issued, and the service URL (null in PHP). */
  datatype Lookup = Lookup(registryQuery: string, url: Option<string>)

  /** `sprintf('%s/v1/health/service/%s?passing=1', $consulUrl, $serviceName)`. */
  function RegistryQueryUrl(consulUrl: string, serviceName: string): (q: string)
    ensures consulUrl + HealthPath <= q
    ensures |q| == |consulUrl| + |HealthPath| + |serviceName| + |PassingFilter|
    ensures q[|consulUrl| + |HealthPath|..|q| - |PassingFilter|] == serviceName
    ensures q[|q| - |PassingFilter|..] == PassingFilter
  {
    consulUrl + HealthPath + serviceName + PassingFilter
  }

  /** Inverse of `RegistryQueryUrl` for a known registry base URL. */
  function ServiceNameOfQuery(consulUrl: string, q: string): Option<string> {
    var head := consulUrl + HealthPath;
    if |q| >= |head| + |PassingFilter| && q[..|head|] == head && q[|q| - |PassingFilter|..] == PassingFilter
    then Some(q[|head|..|q| - |PassingFilter|])
    else None
  }

  lemma RegistryQueryRoundTrip(consulUrl: string, serviceName: string)
    ensures ServiceNameOfQuery(consulUrl, RegistryQueryUrl(consulUrl, serviceName)) == Some(serviceName)
  {
    var q := RegistryQueryUrl(consulUrl, serviceName);
    var head := consulUrl + HealthPath;
    assert q == head + serviceName + PassingFilter;
    assert q[|head|..|q| - |PassingFilter|] == serviceName;
  }

  /** Different services are looked up with different queries. */
  lemma RegistryQueryInjective(consulUrl: string, s1: string, s2: string)
    requires RegistryQueryUrl(consulUrl, s1) == RegistryQueryUrl(consulUrl, s2)
    ensures s1 == s2
  {
    RegistryQueryRoundTrip(consulUrl, s1);
    RegistryQueryRoundTrip(consulUrl, s2);
  }

  /** The health path contributes no '?' of its own. */
  lemma NoQuestionMarkBeforeFilter(consulUrl: string, serviceName: string)
    requires '?' !in consulUrl && '?' !in serviceName
    ensures '?' !in consulUrl + HealthPath + serviceName
  {
    assert '?' !in HealthPath;
  }

  /** The registry query is the path, then '?', then the filter's parameter. */
  lemma RegistryQuerySplitsAtFilter(consulUrl: string, serviceName: string)
    ensures RegistryQueryUrl(consulUrl, serviceName) == (consulUrl + HealthPath + serviceName) + ['?'] + "passing=1"
    ensures |RegistryQueryUrl(consulUrl, serviceName)| - |PassingFilter| == |consulUrl + HealthPath + serviceName|
  {
    assert PassingFilter == ['?'] + "passing=1";
  }

  /** When neither the base URL nor the service name contains '?', the
      health filter `passing=1` is the whole query of the registry request. */
  lemma PassingFilterIsTheWholeQuery(consulUrl: string, serviceName: string)
    requires '?' !in consulUrl && '?' !in serviceName
    ensures var q := RegistryQueryUrl(consulUrl, serviceName);
      FirstIndex(q, '?') == Some(|q| - |PassingFilter|)
  {
    var x := consulUrl + HealthPath + serviceName;
    NoQuestionMarkBeforeFilter(consulUrl, serviceName);
    RegistryQuerySplitsAtFilter(consulUrl, serviceName);
    FirstIndexOfSeparator(x, '?', "passing=1");
  }

  /** `sprintf('http://%s:%d', $address, $port)`. */
  function ServiceUrl(address: string, port: int): (u: string)
    ensures Scheme <= u
    ensures !Falsy(Some(u))
  {
    var u := Scheme + address + ":" + Decimal(port);
    PrefixedIsTruthy(u, Scheme);
    u
  }

  /** Reads a service URL back into its address and port, splitting at the
      last ':' (an IPv6 address may itself contain ':'). */
  function SplitServiceUrl(u: string): Option<(string, int)> {
    if !(Scheme <= u) then None
    else
      var rest := u[|Scheme|..];
      match LastIndex(rest, ':')
      case None => None
      case Some(i) =>
        match ParseDecimal(rest[i + 1..])
        case None => None
        case Some(port) => Some((rest[..i], port))
  }

  /** The formatted URL determines the address and the port it was built from. */
  lemma ServiceUrlRoundTrip(address: string, port: int)
    ensures SplitServiceUrl(ServiceUrl(address, port)) == Some((address, port))
  {
    var u := ServiceUrl(address, port);
    var digits := Decimal(port);
    var rest := u[|Scheme|..];
    assert rest == address + [':'] + digits;
    assert ':' !in digits;
    LastIndexOfSeparator(address, ':', digits);
    assert rest[|address| + 1..] == digits;
    assert rest[..|address|] == address;
    DecimalRoundTrip(port);
  }

  /** PHP `empty($address)` for a present address: "" and "0" are empty. */
  predicate Usable(inst: Instance) {
    && inst.serviceAddress.Some?
    && inst.servicePort.Some?
    && (!EmptyString(inst.serviceAddress.value) || inst.nodeAddress.Some?)
  }

  /** The address the code settles on: the service address, or the node
      address when the service address is empty. */
  function ChosenAddress(inst: Instance): string
    requires Usable(inst)
  {
    if EmptyString(inst.serviceAddress.value) then inst.nodeAddress.value else inst.serviceAddress.value
  }

  /** The body of the `try` block once an instance is chosen. Reading
      `Service.Address` or `Service.Port` fails when the key is missing;
      `Node.Address` is read only when the service address is empty. */
  function InstanceUrl(inst: Instance): (r: Option<string>)
    ensures r.Some? <==> Usable(inst)
    ensures r.Some? ==> r.value == ServiceUrl(ChosenAddress(inst), inst.servicePort.value)
  {
    if inst.serviceAddress.None? || inst.servicePort.None? then None
    else
      var address :=
        if EmptyString(inst.serviceAddress.value) then inst.nodeAddress
        else inst.serviceAddress;
      if address.None? then None
      else Some(ServiceUrl(address.value, inst.servicePort.value))
  }

  /** `getServiceUrl($serviceName)`. */
  function Resolve(consulUrl: string, serviceName: string, reply: RegistryReply, pick: nat): (r: Lookup)
    requires reply.Decoded? && |reply.instances| > 0 ==> pick < |reply.instances|
    ensures r.registryQuery == consulUrl + HealthPath + serviceName + PassingFilter
    ensures r.url.Some? <==> reply.Decoded? && |reply.instances| > 0 && Usable(reply.instances[pick])
    ensures r.url.Some? ==> Scheme <= r.url.value && !Falsy(r.url)
    ensures r.url.Some? ==> exists i :: 0 <= i < |reply.instances| && InstanceUrl(reply.instances[i]) == r.url
  {
    var query := RegistryQueryUrl(consulUrl, serviceName);
    match reply
    case Unreachable(_) => Lookup(query, None)
    case Malformed(_) => Lookup(query, None)
    case Decoded(instances) =>
      if |instances| == 0 then Lookup(query, None)
      else Lookup(query, InstanceUrl(instances[pick]))
  }

  /** An unreachable registry, an undecodable reply and an empty list of
      passing instances are indistinguishable to the caller. */
  lemma FailuresLookLikeNoInstances(consulUrl: string, serviceName: string, error: string, pick: nat)
    ensures Resolve(consulUrl, serviceName, Unreachable(error), pick).url == None
    ensures Resolve(consulUrl, serviceName, Malformed(error), pick).url == None
    ensures Resolve(consulUrl, serviceName, Decoded([]), pick).url == None
  {
  }

  /** A non-empty service address is used as is, with the service port;
      the node record plays no part. */
  lemma PrefersServiceAddress(consulUrl: string, serviceName: string, instances: seq<Instance>, pick: nat)
    requires pick < |instances|
    requires instances[pick].serviceAddress.Some? && !EmptyString(instances[pick].serviceAddress.value)
    requires instances[pick].servicePort.Some?
    ensures Resolve(consulUrl, serviceName, Decoded(instances), pick).url
         == Some(ServiceUrl(instances[pick].serviceAddress.value, instances[pick].servicePort.value))
  {
  }

  /** An empty service address ("" or "0") falls back to the node address;
      the port still comes from the service record. */
  lemma FallsBackToNodeAddress(consulUrl: string, serviceName: string, instances: seq<Instance>, pick: nat)
    requires pick < |instances|
    requires instances[pick].serviceAddress.Some? && EmptyString(instances[pick].serviceAddress.value)
    requires instances[pick].servicePort.Some? && instances[pick].nodeAddress.Some?
    ensures Resolve(consulUrl, serviceName, Decoded(instances), pick).url
         == Some(ServiceUrl(instances[pick].nodeAddress.value, instances[pick].servicePort.value))
  {
  }

  /** Only the chosen instance matters: two replies whose picked elements
      agree resolve to the same URL, whatever else they contain. */
  lemma OnlyChosenInstanceMatters(consulUrl: string, serviceName: string,
                                  xs: seq<Instance>, i: nat, ys: seq<Instance>, j: nat)
    requires i < |xs| && j < |ys| && xs[i] == ys[j]
    ensures Resolve(consulUrl, serviceName, Decoded(xs), i).url == Resolve(consulUrl, serviceName, Decoded(ys), j).url
  {
  }

  /** A healthy instance `10.0.0.1:8080` on node `127.0.0.1` yields
      `http://10.0.0.1:8080`. */
  lemma ExampleHealthyService()
    ensures Resolve("http://consul:8500", "my-service",
                    Decoded([Instance(Some("10.0.0.1"), Some(8080), Some("127.0.0.1"))]), 0).url
         == Some("http://10.0.0.1:8080")
  {
    assert NatDecimal(8) == "8";
    assert NatDecimal(80) == "80";
    assert NatDecimal(808) == "808";
    assert Decimal(8080) == "8080";
    assert ServiceUrl("10.0.0.1", 8080) == "http://" + "10.0.0.1" + ":" + "8080";
    assert ServiceUrl("10.0.0.1", 8080) == "http://10.0.0.1:8080";
    var inst := Instance(Some("10.0.0.1"), Some(8080), Some("127.0.0.1"));
    assert InstanceUrl(inst) == Some("http://10.0.0.1:8080");
  }

  /** An empty list of passing instances yields no URL, after querying the
      health endpoint of that service. */
  lemma ExampleEmptyService()
    ensures Resolve("http://consul:8500", "unknown-service", Decoded([]), 0)
         == Lookup("http://consul:8500/v1/health/service/unknown-service?passing=1", None)
  {
    var head := "http://consul:8500" + HealthPath;
    assert head == "http://consul:8500/v1/health/service/";
    var named := head + "unknown-service";
    assert named == "http://consul:8500/v1/health/service/unknown-service";
    assert named + PassingFilter == "http://consul:8500/v1/health/service/unknown-service?passing=1";
  }
}
