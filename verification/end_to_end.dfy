/** The controller wired to service discovery: `handle` receives, as its
    discovery answer, whatever `getServiceUrl` made of the registry's reply.
    These lemmas connect the two halves of the gateway. */
module EndToEnd {
  import opened Wrappers
  import opened PhpText
  import ServiceDiscovery
  import opened Gateway

  /** One request served end to end: the limiter's verdict, the registry's
      reply, the index `array_rand` picks and the upstream result are the
      external answers. */
  function Serve(consulUrl: string, req: Request, service: string, path: string,
                 admitted: bool, reply: ServiceDiscovery.RegistryReply, pick: nat,
                 forwarded: ForwardResult): (x: Exchange)
    requires reply.Decoded? && |reply.instances| > 0 ==> pick < |reply.instances|
    ensures x.trace.sent.Some?
        <==> admitted && reply.Decoded? && |reply.instances| > 0 && ServiceDiscovery.Usable(reply.instances[pick])
    ensures x.trace.discoveryFor == (if admitted then Some(service) else None)
  {
    var found := ServiceDiscovery.Resolve(consulUrl, service, reply, pick).url;
    Handle(req, service, path, Oracle(admitted, found, forwarded))
  }

  /** A service with no passing instance gets 404, and no request leaves
      the gateway. */
  lemma NoInstancesMeansNotFound(consulUrl: string, req: Request, service: string, path: string,
                                 pick: nat, forwarded: ForwardResult)
    ensures var x := Serve(consulUrl, req, service, path, true, ServiceDiscovery.Decoded([]), pick, forwarded);
      x.outcome == ServiceNotFound(NotFoundMessage(service)) && x.trace.sent == None
  {
  }

  /** A registry outage is reported to the caller exactly like an unknown
      service. */
  lemma RegistryOutageLooksLikeUnknownService(consulUrl: string, req: Request, service: string, path: string,
                                              error: string, pick: nat, forwarded: ForwardResult)
    ensures Serve(consulUrl, req, service, path, true, ServiceDiscovery.Unreachable(error), pick, forwarded)
         == Serve(consulUrl, req, service, path, true, ServiceDiscovery.Decoded([]), pick, forwarded)
  {
  }

  /** A usable instance is never mistaken for a missing service: the
      discovered URL is truthy, so the request is forwarded to that
      instance's address and port. */
  lemma FoundServiceIsForwarded(consulUrl: string, req: Request, service: string, path: string,
                                instances: seq<ServiceDiscovery.Instance>, pick: nat, forwarded: ForwardResult)
    requires pick < |instances| && ServiceDiscovery.Usable(instances[pick])
    ensures var x := Serve(consulUrl, req, service, path, true, ServiceDiscovery.Decoded(instances), pick, forwarded);
      var inst := instances[pick];
      var base := ServiceDiscovery.ServiceUrl(ServiceDiscovery.ChosenAddress(inst), inst.servicePort.value);
      && x.trace.sent.Some?
      && x.trace.sent.value.url == TargetUrl(base, path, req.queryString)
  {
    var found := ServiceDiscovery.Resolve(consulUrl, service, ServiceDiscovery.Decoded(instances), pick).url;
    ForwardedRequestIsSent(req, service, path, Oracle(true, found, forwarded));
  }
}
