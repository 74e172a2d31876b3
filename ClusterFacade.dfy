/**
  The clusters resource (`ClusterServiceImpl`): listing, creating, reading and
  deleting clusters, their running commands, and the cluster actions.

  Every action (start, stop, restart, upgradeServices) is sent through one
  private helper that ignores the action it is given and always submits
  `upgradeServices`. The model keeps that behaviour as it is written.
 */
module ClusterFacade {
  import opened JavaLang
  import opened Domain
  import opened Http

  const CLUSTERS_PATH: string := "/api/v1/clusters"
  const CLUSTER_PATH: string := "/api/v1/clusters/{clusterName}"
  const CLUSTER_COMMANDS_PATH: string := "/api/v1/clusters/{clusterName}/commands"
  const CLUSTER_COMMANDS_ACTION_PATH: string := "/api/v1/clusters/{clusterName}/commands/{action}"

  datatype ClusterCommand = start | stop | restart | upgradeServices
  {
    /** `ClusterCommand.name()`. */
    function Name(): string
    {
      match this
      case start => "start"
      case stop => "stop"
      case restart => "restart"
      case upgradeServices => "upgradeServices"
    }
  }

  function GetAllClustersRequest(): Request
  {
    Request(GET, CLUSTERS_PATH, Null, ClusterListType, [])
  }

  function CreateClustersRequest(clusters: seq<Cluster>): Request
  {
    Request(POST, CLUSTERS_PATH, Ref(ClusterList(Envelope(Ref(clusters)))), ClusterListType, [])
  }

  function GetClusterRequest(clusterName: JString): Request
  {
    Request(GET, CLUSTER_PATH, Null, ClusterType, [clusterName])
  }

  function DeleteClusterRequest(clusterName: JString): Request
  {
    Request(DELETE, CLUSTER_PATH, Null, ClusterType, [clusterName])
  }

  function GetActiveClusterCommandsRequest(clusterName: JString): Request
  {
    Request(GET, CLUSTER_COMMANDS_PATH, Null, CommandListType, [clusterName])
  }

  /** The request `executeCommand(cluster, action)` sends, as written: the action
      parameter is not used. */
  function ExecuteCommandRequest(cluster: Cluster, action: ClusterCommand): Request
  {
    Request(POST, CLUSTER_COMMANDS_ACTION_PATH, Null, CommandType, [cluster.name, Ref(upgradeServices.Name())])
  }

  /** Whatever action is asked for, the same request is sent, and it names
      `upgradeServices`: start, stop and restart cannot be told apart. */
  lemma ClusterActionsAllUpgradeServices(cluster: Cluster, a: ClusterCommand, b: ClusterCommand)
    ensures ExecuteCommandRequest(cluster, a) == ExecuteCommandRequest(cluster, b)
    ensures ExecuteCommandRequest(cluster, a).uriVariables == [cluster.name, Ref("upgradeServices")]
    ensures a != upgradeServices ==> ExecuteCommandRequest(cluster, a).uriVariables[1] != Ref(a.Name())
  {
  }

  /** A server that echoes the posted envelope gives back exactly the clusters
      that were created, so the result has as many clusters as the argument. */
  lemma CreateClustersEcho(clusters: seq<Cluster>)
    ensures var echo := CreateClustersRequest(clusters).body;
      Conforms(echo, ClusterListType) && ItemsOrEmpty(ClusterListOf(echo)) == clusters
  {
  }

  class ClusterServiceImpl {
    const http: HttpService

    constructor (httpUtil: HttpService)
      ensures http == httpUtil
    {
      http := httpUtil;
    }

    method GetAllClusters() returns (clusters: seq<Cluster>)
      modifies http
      ensures http.log == old(http.log) + [GetAllClustersRequest()]
      ensures clusters == ItemsOrEmpty(ClusterListOf(old(http.ReplyTo(GetAllClustersRequest()))))
    {
      var clusterItems := http.Get(CLUSTERS_PATH, ClusterListType, []);
      if clusterItems.Null? || clusterItems.value.clusters.items.Null? {
        return [];
      }
      return clusterItems.value.clusters.items.value;
    }

    /** Creates the given clusters, posted in argument order in one envelope. */
    method CreateClusters(clusters: seq<Cluster>) returns (created: seq<Cluster>)
      modifies http
      ensures http.log == old(http.log) + [CreateClustersRequest(clusters)]
      ensures created == ItemsOrEmpty(ClusterListOf(old(http.ReplyTo(CreateClustersRequest(clusters)))))
    {
      var clusterList := http.Post(CLUSTERS_PATH, Ref(ClusterList(Envelope(Ref(clusters)))), ClusterListType, []);
      if clusterList.Null? || clusterList.value.clusters.items.Null? {
        return [];
      }
      return clusterList.value.clusters.items.value;
    }

    method GetCluster(clusterName: JString) returns (cluster: Nullable<Cluster>)
      modifies http
      ensures http.log == old(http.log) + [GetClusterRequest(clusterName)]
      ensures cluster == ClusterOf(old(http.ReplyTo(GetClusterRequest(clusterName))))
    {
      var reply := http.Get(CLUSTER_PATH, ClusterType, [clusterName]);
      cluster := ClusterOf(reply);
    }

    method DeleteCluster(clusterName: JString) returns (cluster: Nullable<Cluster>)
      modifies http
      ensures http.log == old(http.log) + [DeleteClusterRequest(clusterName)]
      ensures cluster == ClusterOf(old(http.ReplyTo(DeleteClusterRequest(clusterName))))
    {
      var reply := http.Delete(CLUSTER_PATH, Null, ClusterType, [clusterName]);
      cluster := ClusterOf(reply);
    }

    method GetActiveClusterCommands(clusterName: JString) returns (commands: seq<Command>)
      modifies http
      ensures http.log == old(http.log) + [GetActiveClusterCommandsRequest(clusterName)]
      ensures commands == ItemsOrEmpty(CommandListOf(old(http.ReplyTo(GetActiveClusterCommandsRequest(clusterName)))))
    {
      var commandList := http.Get(CLUSTER_COMMANDS_PATH, CommandListType, [clusterName]);
      if commandList.Null? || commandList.value.commands.items.Null? {
        return [];
      }
      return commandList.value.commands.items.value;
    }

    method RestartCluster(cluster: Cluster) returns (command: Nullable<Command>)
      modifies http
      ensures http.log == old(http.log) + [ExecuteCommandRequest(cluster, restart)]
      ensures command == CommandOf(old(http.ReplyTo(ExecuteCommandRequest(cluster, restart))))
    {
      command := ExecuteCommand(cluster, restart);
    }

    method StopCluster(cluster: Cluster) returns (command: Nullable<Command>)
      modifies http
      ensures http.log == old(http.log) + [ExecuteCommandRequest(cluster, stop)]
      ensures command == CommandOf(old(http.ReplyTo(ExecuteCommandRequest(cluster, stop))))
    {
      command := ExecuteCommand(cluster, stop);
    }

    method StartCluster(cluster: Cluster) returns (command: Nullable<Command>)
      modifies http
      ensures http.log == old(http.log) + [ExecuteCommandRequest(cluster, start)]
      ensures command == CommandOf(old(http.ReplyTo(ExecuteCommandRequest(cluster, start))))
    {
      command := ExecuteCommand(cluster, start);
    }

    method UpgradeServices(cluster: Cluster) returns (command: Nullable<Command>)
      modifies http
      ensures http.log == old(http.log) + [ExecuteCommandRequest(cluster, upgradeServices)]
      ensures command == CommandOf(old(http.ReplyTo(ExecuteCommandRequest(cluster, upgradeServices))))
    {
      command := ExecuteCommand(cluster, upgradeServices);
    }

    /** Posts a cluster command with no body; the second path variable is
        always `upgradeServices`. */
    method ExecuteCommand(cluster: Cluster, action: ClusterCommand) returns (command: Nullable<Command>)
      modifies http
      ensures http.log == old(http.log) + [ExecuteCommandRequest(cluster, action)]
      ensures command == CommandOf(old(http.ReplyTo(ExecuteCommandRequest(cluster, action))))
    {
      var reply := http.Post(CLUSTER_COMMANDS_ACTION_PATH, Null, CommandType, [cluster.name, Ref(upgradeServices.Name())]);
      command := CommandOf(reply);
    }
  }

  /** A server that answers every request with the body it was sent, when that
      body is of the requested class, and with null otherwise. */
  function EchoServer(history: seq<Request>, req: Request): Nullable<Payload>
  {
    if Conforms(req.body, req.responseType) then req.body else Null
  }

  /** The cluster test's scenario: against an echoing server, `createClusters`
      returns exactly the clusters it was given, so as many as were given. */
  method CreateClustersAgainstEcho(clusters: seq<Cluster>) returns (created: seq<Cluster>)
    ensures created == clusters
    ensures |created| == |clusters|
  {
    var http := new HttpService(EchoServer);
    var service := new ClusterServiceImpl(http);
    CreateClustersEcho(clusters);
    created := service.CreateClusters(clusters);
  }
}
