/**
  The hosts resource (`HostServiceImpl`): creating, updating, reading and
  deleting hosts, host configuration and host metrics.
 */
module HostFacade {
  import opened JavaLang
  import opened Domain
  import opened Http

  const HOSTS_PATH: string := "/api/v1/hosts?view=full"
  const HOST_PATH: string := "/api/v1/hosts/{hostId}"
  const HOST_CONFIG_PATH: string := "/api/v1/hosts/{hostId}/config"
  const HOST_METRICS_PATH: string := "/api/v1/hosts/{hostId}/metrics"

  function CreateHostsRequest(newHosts: seq<Host>): Request
  {
    Request(POST, HOSTS_PATH, Ref(HostList(Envelope(Ref(newHosts)))), HostListType, [])
  }

  function UpdateHostRequest(host: Host): Request
  {
    Request(PUT, HOST_PATH, Ref(HostValue(host)), HostType, [host.hostId])
  }

  function GetAllHostsRequest(): Request
  {
    Request(GET, HOSTS_PATH, Null, HostListType, [])
  }

  function GetHostRequest(hostId: JString): Request
  {
    Request(GET, HOST_PATH, Null, HostType, [hostId])
  }

  function DeleteHostRequest(hostId: JString): Request
  {
    Request(DELETE, HOST_PATH, Null, HostType, [hostId])
  }

  function DeleteAllHostsRequest(): Request
  {
    Request(DELETE, HOSTS_PATH, Null, HostListType, [])
  }

  function GetHostConfigRequest(hostId: JString): Request
  {
    Request(GET, HOST_CONFIG_PATH, Null, ConfigListType, [hostId])
  }

  function UpdateHostConfigRequest(hostId: JString, configs: seq<Config>): Request
  {
    Request(PUT, HOST_CONFIG_PATH, Ref(ConfigList(Envelope(Ref(configs)))), ConfigListType, [hostId])
  }

  function GetHostMetricsRequest(hostId: JString): Request
  {
    Request(GET, HOST_METRICS_PATH, Null, MetricListType, [hostId])
  }

  /** An update is addressed to the host it carries: the one path variable is
      the body's own host id. */
  lemma UpdateAddressesItsBody(host: Host)
    ensures var req := UpdateHostRequest(host);
      req.body.Ref? && req.body.value.HostValue? && req.uriVariables == [req.body.value.host.hostId]
  {
  }

  /** A read, an update and a delete of the same host id address the same resource. */
  lemma HostRequestsShareResource(host: Host)
    ensures UpdateHostRequest(host).url == GetHostRequest(host.hostId).url == DeleteHostRequest(host.hostId).url
    ensures UpdateHostRequest(host).uriVariables == GetHostRequest(host.hostId).uriVariables
                                                 == DeleteHostRequest(host.hostId).uriVariables
  {
  }

  class HostServiceImpl {
    const http: HttpService

    constructor (httpService: HttpService)
      ensures http == httpService
    {
      http := httpService;
    }

    /** Registers the given hosts, posted in argument order in one envelope. */
    method Create(newHosts: seq<Host>) returns (hosts: seq<Host>)
      modifies http
      ensures http.log == old(http.log) + [CreateHostsRequest(newHosts)]
      ensures hosts == ItemsOrEmpty(HostListOf(old(http.ReplyTo(CreateHostsRequest(newHosts)))))
    {
      var hostList := http.Post(HOSTS_PATH, Ref(HostList(Envelope(Ref(newHosts)))), HostListType, []);
      if hostList.Null? || hostList.value.hosts.items.Null? {
        return [];
      }
      return hostList.value.hosts.items.value;
    }

    /** Updates a host; the host itself is the body and its id the path variable. */
    method Update(host: Host) returns (updated: Nullable<Host>)
      modifies http
      ensures http.log == old(http.log) + [UpdateHostRequest(host)]
      ensures updated == HostOf(old(http.ReplyTo(UpdateHostRequest(host))))
    {
      var reply := http.Put(HOST_PATH, Ref(HostValue(host)), HostType, [host.hostId]);
      updated := HostOf(reply);
    }

    method GetAllHosts() returns (hosts: seq<Host>)
      modifies http
      ensures http.log == old(http.log) + [GetAllHostsRequest()]
      ensures hosts == ItemsOrEmpty(HostListOf(old(http.ReplyTo(GetAllHostsRequest()))))
    {
      var hostList := http.Get(HOSTS_PATH, HostListType, []);
      if hostList.Null? || hostList.value.hosts.items.Null? {
        return [];
      }
      return hostList.value.hosts.items.value;
    }

    method GetHost(hostId: JString) returns (host: Nullable<Host>)
      modifies http
      ensures http.log == old(http.log) + [GetHostRequest(hostId)]
      ensures host == HostOf(old(http.ReplyTo(GetHostRequest(hostId))))
    {
      var reply := http.Get(HOST_PATH, HostType, [hostId]);
      host := HostOf(reply);
    }

    method Delete(hostId: JString) returns (deleted: Nullable<Host>)
      modifies http
      ensures http.log == old(http.log) + [DeleteHostRequest(hostId)]
      ensures deleted == HostOf(old(http.ReplyTo(DeleteHostRequest(hostId))))
    {
      var reply := http.Delete(HOST_PATH, Null, HostType, [hostId]);
      deleted := HostOf(reply);
    }

    /** Deletes every host with a body-less DELETE on the collection. */
    method DeleteAllHosts() returns (hosts: seq<Host>)
      modifies http
      ensures http.log == old(http.log) + [DeleteAllHostsRequest()]
      ensures hosts == ItemsOrEmpty(HostListOf(old(http.ReplyTo(DeleteAllHostsRequest()))))
    {
      var hostList := http.Delete(HOSTS_PATH, Null, HostListType, []);
      if hostList.Null? || hostList.value.hosts.items.Null? {
        return [];
      }
      return hostList.value.hosts.items.value;
    }

    /** The configuration of a host: null only when the envelope is absent. */
    method GetHostConfig(hostId: JString) returns (configs: Nullable<seq<Config>>)
      modifies http
      ensures http.log == old(http.log) + [GetHostConfigRequest(hostId)]
      ensures configs == ItemsUnchecked(ConfigListOf(old(http.ReplyTo(GetHostConfigRequest(hostId)))))
    {
      var configList := http.Get(HOST_CONFIG_PATH, ConfigListType, [hostId]);
      if configList.Ref? {
        return configList.value.configs.items;
      }
      return Null;
    }

    /** Replaces host configuration entries, put in argument order in one envelope. */
    method UpdateHostConfig(hostId: JString, configs: seq<Config>) returns (updated: Nullable<seq<Config>>)
      modifies http
      ensures http.log == old(http.log) + [UpdateHostConfigRequest(hostId, configs)]
      ensures updated == ItemsUnchecked(ConfigListOf(old(http.ReplyTo(UpdateHostConfigRequest(hostId, configs)))))
    {
      var configList := http.Put(HOST_CONFIG_PATH, Ref(ConfigList(Envelope(Ref(configs)))), ConfigListType, [hostId]);
      if configList.Ref? {
        return configList.value.configs.items;
      }
      return Null;
    }

    method GetHostMetrics(hostId: JString) returns (metrics: seq<Metric>)
      modifies http
      ensures http.log == old(http.log) + [GetHostMetricsRequest(hostId)]
      ensures metrics == ItemsOrEmpty(MetricListOf(old(http.ReplyTo(GetHostMetricsRequest(hostId)))))
    {
      var metricList := http.Get(HOST_METRICS_PATH, MetricListType, [hostId]);
      if metricList.Null? || metricList.value.metrics.items.Null? {
        return [];
      }
      return metricList.value.metrics.items.value;
    }
  }
}
