/** The routing layer of the sidecar: the cached endpoints of a destination, and the selection among them. */
module Outbound {
  import opened GoStrings
  import opened Routing
  import opened Pipeline
  import Discovery

  /** The rest of routingMiddleware, which holds the cache and the load balancer. */
  class Router {
    const cache: Discovery.ServiceCache
    const balancer: RoutingMiddleware
    const mesh: Mesh

    constructor (mesh: Mesh, cache: Discovery.ServiceCache)
      ensures this.mesh == mesh && this.cache == cache && fresh(balancer)
      ensures balancer.policy == mesh.policy && balancer.roundRobinState == map[]
    {
      this.mesh := mesh;
      this.cache := cache;
      balancer := new RoutingMiddleware(mesh.policy);
    }

    /** The context and the cursors as they are when routingMiddleware.Handle calls next. */
    method Handle(w: World) returns (r: World)
      requires balancer.policy == mesh.policy && balancer.roundRobinState == w.cursors
      modifies balancer`roundRobinState
      ensures r == Route(mesh.(cache := cache.byKey), w)
      ensures balancer.roundRobinState == r.cursors
    {
      if w.listener == INBOUND_PLAIN || w.listener == INBOUND_MTLS {
        return w.(meta := Meta(mesh.appTarget, "local-app", false, "", ""));
      }
      r := RouteOutbound(w);
    }

    method RouteOutbound(w: World) returns (r: World)
      requires w.listener != INBOUND_PLAIN && w.listener != INBOUND_MTLS
      requires balancer.policy == mesh.policy && balancer.roundRobinState == w.cursors
      modifies balancer`roundRobinState
      ensures r == Route(mesh.(cache := cache.byKey), w)
      ensures balancer.roundRobinState == r.cursors
    {
      var endpoints := cache.GetEndpoints(w.originalDst);
      if |endpoints| == 0 {
        return w.(meta := Meta(w.originalDst, "external", false, "", ""));
      }
      var selected := balancer.SelectEndpoint(w.originalDst, endpoints, w.draw % |endpoints|);
      var targetPort := mesh.plainPort;
      if mesh.mtlsPort > 0 {
        targetPort := mesh.mtlsPort;
      }
      var targetAddr := JoinHostPort(selected.ip, targetPort);
      var serverName := "";
      if mesh.mtlsPort > 0 {
        serverName := selected.serviceName;
      }
      var meta := Meta(targetAddr, selected.serviceName, mesh.mtlsPort > 0, serverName, targetAddr);
      r := w.(meta := meta, cursors := balancer.roundRobinState);
    }
  }
}
