/**
  The entry points of the client: `ClouderaManagerImpl` and its older twin
  `ConfigurationManager`. Each holds the HTTP collaborator, fixed at
  construction, and four facades that are built on first use. A getter builds
  its facade when its field is still null and returns the field; later calls
  return the same facade and change nothing. The getters are not synchronised;
  calls are taken to happen one at a time.
 */
module Managers {
  import Http
  import ClusterFacade
  import HostFacade
  import UserFacade
  import ServiceFacade

  /** `ClouderaManagerImpl`. */
  class ClouderaManagerImpl {
    const httpService: Http.HttpService

    var clusterService: ClusterFacade.ClusterServiceImpl?
    var hostService: HostFacade.HostServiceImpl?
    var userService: UserFacade.UserServiceImpl?
    var serviceService: ServiceFacade.ServiceServiceImpl?

    /** Every facade built so far talks to the one collaborator fixed at construction. */
    predicate Valid()
      reads this
    {
      (clusterService != null ==> clusterService.http == httpService)
      && (hostService != null ==> hostService.http == httpService)
      && (userService != null ==> userService.http == httpService)
      && (serviceService != null ==> serviceService.http == httpService)
    }

    constructor (httpService: Http.HttpService)
      ensures Valid()
      ensures this.httpService == httpService
      ensures clusterService == null && hostService == null && userService == null && serviceService == null
    {
      this.httpService := httpService;
      clusterService := null;
      hostService := null;
      userService := null;
      serviceService := null;
    }

    /** The cluster facade, built on first use and then always the same one. */
    method GetClusterService() returns (s: ClusterFacade.ClusterServiceImpl)
      requires Valid()
      modifies this
      ensures Valid()
      ensures clusterService == s && s.http == httpService
      ensures old(clusterService) != null ==> s == old(clusterService) && unchanged(this)
      ensures old(clusterService) == null ==> fresh(s)
      ensures hostService == old(hostService) && userService == old(userService) && serviceService == old(serviceService)
    {
      if clusterService == null {
        clusterService := new ClusterFacade.ClusterServiceImpl(httpService);
      }
      return clusterService;
    }

    /** The host facade, built on first use and then always the same one. */
    method GetHostService() returns (s: HostFacade.HostServiceImpl)
      requires Valid()
      modifies this
      ensures Valid()
      ensures hostService == s && s.http == httpService
      ensures old(hostService) != null ==> s == old(hostService) && unchanged(this)
      ensures old(hostService) == null ==> fresh(s)
      ensures clusterService == old(clusterService) && userService == old(userService) && serviceService == old(serviceService)
    {
      if hostService == null {
        hostService := new HostFacade.HostServiceImpl(httpService);
      }
      return hostService;
    }

    /** The user facade, built on first use and then always the same one. */
    method GetUserService() returns (s: UserFacade.UserServiceImpl)
      requires Valid()
      modifies this
      ensures Valid()
      ensures userService == s && s.http == httpService
      ensures old(userService) != null ==> s == old(userService) && unchanged(this)
      ensures old(userService) == null ==> fresh(s)
      ensures clusterService == old(clusterService) && hostService == old(hostService) && serviceService == old(serviceService)
    {
      if userService == null {
        userService := new UserFacade.UserServiceImpl(httpService);
      }
      return userService;
    }

    /** The service facade, built on first use and then always the same one. */
    method GetServiceService() returns (s: ServiceFacade.ServiceServiceImpl)
      requires Valid()
      modifies this
      ensures Valid()
      ensures serviceService == s && s.http == httpService
      ensures old(serviceService) != null ==> s == old(serviceService) && unchanged(this)
      ensures old(serviceService) == null ==> fresh(s)
      ensures clusterService == old(clusterService) && hostService == old(hostService) && userService == old(userService)
    {
      if serviceService == null {
        serviceService := new ServiceFacade.ServiceServiceImpl(httpService);
      }
      return serviceService;
    }
  }

  /** `ConfigurationManager`. */
  class ConfigurationManager {
    const httpService: Http.HttpService

    var clusterService: ClusterFacade.ClusterServiceImpl?
    var hostService: HostFacade.HostServiceImpl?
    var userService: UserFacade.UserServiceImpl?
    var serviceService: ServiceFacade.ServiceServiceImpl?

    /** Every facade built so far talks to the one collaborator fixed at construction. */
    predicate Valid()
      reads this
    {
      (clusterService != null ==> clusterService.http == httpService)
      && (hostService != null ==> hostService.http == httpService)
      && (userService != null ==> userService.http == httpService)
      && (serviceService != null ==> serviceService.http == httpService)
    }

    constructor (httpService: Http.HttpService)
      ensures Valid()
      ensures this.httpService == httpService
      ensures clusterService == null && hostService == null && userService == null && serviceService == null
    {
      this.httpService := httpService;
      clusterService := null;
      hostService := null;
      userService := null;
      serviceService := null;
    }

    /** The cluster facade, built on first use and then always the same one. */
    method GetClusterService() returns (s: ClusterFacade.ClusterServiceImpl)
      requires Valid()
      modifies this
      ensures Valid()
      ensures clusterService == s && s.http == httpService
      ensures old(clusterService) != null ==> s == old(clusterService) && unchanged(this)
      ensures old(clusterService) == null ==> fresh(s)
      ensures hostService == old(hostService) && userService == old(userService) && serviceService == old(serviceService)
    {
      if clusterService == null {
        clusterService := new ClusterFacade.ClusterServiceImpl(httpService);
      }
      return clusterService;
    }

    /** The host facade, built on first use and then always the same one. */
    method GetHostService() returns (s: HostFacade.HostServiceImpl)
      requires Valid()
      modifies this
      ensures Valid()
      ensures hostService == s && s.http == httpService
      ensures old(hostService) != null ==> s == old(hostService) && unchanged(this)
      ensures old(hostService) == null ==> fresh(s)
      ensures clusterService == old(clusterService) && userService == old(userService) && serviceService == old(serviceService)
    {
      if hostService == null {
        hostService := new HostFacade.HostServiceImpl(httpService);
      }
      return hostService;
    }

    /** The user facade, built on first use and then always the same one. */
    method GetUserService() returns (s: UserFacade.UserServiceImpl)
      requires Valid()
      modifies this
      ensures Valid()
      ensures userService == s && s.http == httpService
      ensures old(userService) != null ==> s == old(userService) && unchanged(this)
      ensures old(userService) == null ==> fresh(s)
      ensures clusterService == old(clusterService) && hostService == old(hostService) && serviceService == old(serviceService)
    {
      if userService == null {
        userService := new UserFacade.UserServiceImpl(httpService);
      }
      return userService;
    }

    /** The service facade, built on first use and then always the same one. */
    method GetServiceService() returns (s: ServiceFacade.ServiceServiceImpl)
      requires Valid()
      modifies this
      ensures Valid()
      ensures serviceService == s && s.http == httpService
      ensures old(serviceService) != null ==> s == old(serviceService) && unchanged(this)
      ensures old(serviceService) == null ==> fresh(s)
      ensures clusterService == old(clusterService) && hostService == old(hostService) && userService == old(userService)
    {
      if serviceService == null {
        serviceService := new ServiceFacade.ServiceServiceImpl(httpService);
      }
      return serviceService;
    }
  }
}
