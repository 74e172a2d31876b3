/**
  The services resource of a cluster: listing, creating, reading and deleting
  services, their configuration, their commands, and their roles.

  Two classes carry the same logic: `ServiceServiceImpl` and its older twin
  `ServiceService`. Both build their requests and unwrap their replies with the
  functions of this module, so each rule is stated once.
 */
module ServiceFacade {
  import opened JavaLang
  import opened Domain
  import opened Http

  const SERVICES_URL: string := "/api/v1/clusters/{clusterName}/services"
  const SERVICE_URL: string := "/api/v1/clusters/{clusterName}/services/{serviceName}"
  const SERVICE_CONFIG_URL: string := "/api/v1/clusters/{clusterName}/services/{serviceName}/config?view={view}"
  const SERVICE_COMMANDS_URL: string := "/api/v1/clusters/{clusterName}/services/{serviceName}/commands"
  const SERVICE_COMMANDS_ACTION_URL: string := "/api/v1/clusters/{clusterName}/services/{serviceName}/commands/{command}"
  const ROLES_URL: string := "/api/v1/clusters/{clusterName}/services/{serviceName}/roles"
  const ROLE_TYPES_URL: string := "/api/v1/clusters/{clusterName}/services/{serviceName}/roleTypes"
  const ROLE_COMMAND_URL: string := "/api/v1/clusters/{clusterName}/services/{serviceName}/roleCommands/{command}"

  /** How much of a configuration to read. */
  datatype View = summary | full
  {
    /** `View.name()`. */
    function Name(): string
    {
      match this
      case summary => "summary"
      case full => "full"
    }
  }

  /** The commands a service accepts. */
  datatype ServiceCommand =
    | start | stop | restart
    | decommission | deployClientConfig | hbaseCreateRoot
    | hdfsDisableAutoFailover | hdfsDisableHa | hdfsEnableAutoFailover | hdfsEnableHa | hdfsFailover
    | hueCreateHiveWarehouse
    | zooKeeperCleanup | zooKeeperInit
  {
    /** `ServiceCommand.name()`. */
    function Name(): string
    {
      match this
      case start => "start"
      case stop => "stop"
      case restart => "restart"
      case decommission => "decommission"
      case deployClientConfig => "deployClientConfig"
      case hbaseCreateRoot => "hbaseCreateRoot"
      case hdfsDisableAutoFailover => "hdfsDisableAutoFailover"
      case hdfsDisableHa => "hdfsDisableHa"
      case hdfsEnableAutoFailover => "hdfsEnableAutoFailover"
      case hdfsEnableHa => "hdfsEnableHa"
      case hdfsFailover => "hdfsFailover"
      case hueCreateHiveWarehouse => "hueCreateHiveWarehouse"
      case zooKeeperCleanup => "zooKeeperCleanup"
      case zooKeeperInit => "zooKeeperInit"
    }
  }

  /** The commands a set of roles accepts in bulk. */
  datatype RoleCommand = startRoles | stopRoles | restartRoles | refreshRoles
  {
    /** `RoleCommand.name()`: the constants are `start`, `stop`, `restart`, `refresh`. */
    function Name(): string
    {
      match this
      case startRoles => "start"
      case stopRoles => "stop"
      case restartRoles => "restart"
      case refreshRoles => "refresh"
    }
  }

  // ---------------------------------------------------------------------------
  // Request descriptors

  function GetAllServicesRequest(clusterName: JString): Request
  {
    Request(GET, SERVICES_URL, Null, ServiceListType, [clusterName])
  }

  function CreateServicesRequest(clusterName: JString, services: seq<Service>): Request
  {
    Request(POST, SERVICES_URL, Ref(ServiceList(Envelope(Ref(services)))), ServiceListType, [clusterName])
  }

  function DeleteServiceRequest(clusterName: JString, serviceName: JString): Request
  {
    Request(DELETE, SERVICE_URL, Null, ServiceType, [clusterName, serviceName])
  }

  function GetServiceRequest(clusterName: JString, serviceName: JString): Request
  {
    Request(GET, SERVICE_URL, Null, ServiceType, [clusterName, serviceName])
  }

  function GetServiceConfigurationRequest(service: Service, view: View): Request
    requires service.clusterRef.Ref?
  {
    Request(GET, SERVICE_CONFIG_URL, Null, ServiceConfigType, [service.clusterRef.value.clusterName, service.name, Ref(view.Name())])
  }

  /** The body of a configuration update: the caller's configuration, or null. */
  function ServiceConfigBody(config: Nullable<Envelope<Config>>): Nullable<Payload>
  {
    if config.Null? then Null else Ref(ServiceConfigValue(config.value))
  }

  function UpdateServiceConfigurationRequest(service: Service, config: Nullable<Envelope<Config>>): Request
    requires service.clusterRef.Ref?
  {
    Request(PUT, SERVICE_CONFIG_URL, ServiceConfigBody(config), ServiceConfigType,
            [service.clusterRef.value.clusterName, service.name, Ref(full.Name())])
  }

  function GetActiveServiceCommandsRequest(clusterName: JString, serviceName: JString): Request
  {
    Request(GET, SERVICE_COMMANDS_URL, Null, CommandListType, [clusterName, serviceName])
  }

  function ActionCommandRequest(service: Service, command: ServiceCommand): Request
    requires service.clusterRef.Ref?
  {
    Request(POST, SERVICE_COMMANDS_ACTION_URL, Null, CommandType,
            [service.clusterRef.value.clusterName, service.name, Ref(command.Name())])
  }

  function GetRoleTypesRequest(service: Service): Request
    requires service.clusterRef.Ref?
  {
    Request(GET, ROLE_TYPES_URL, Null, RoleTypeListType, [service.clusterRef.value.clusterName, service.name])
  }

  function GetRolesRequest(service: Service): Request
    requires service.clusterRef.Ref?
  {
    Request(GET, ROLES_URL, Null, RoleListType, [service.clusterRef.value.clusterName, service.name])
  }

  /** A bulk role command may be issued only for a non-empty list. */
  predicate IssuesRoleCommand(roles: Nullable<seq<Role>>)
  {
    roles.Ref? && |roles.value| > 0
  }

  /** What `rolesCommand` needs of its argument so as not to dereference null:
      the first role, when there is one, has a service reference. */
  predicate RolesCommandArgument(roles: Nullable<seq<Role>>)
  {
    IssuesRoleCommand(roles) ==> roles.value[0].serviceRef.Ref?
  }

  /** The bulk role command: the service is taken from the first role alone. */
  function RolesCommandRequest(roles: seq<Role>, command: RoleCommand): Request
    requires |roles| > 0 && roles[0].serviceRef.Ref?
  {
    var serviceRef := roles[0].serviceRef.value;
    Request(POST, ROLE_COMMAND_URL, Ref(RoleNamesValue(RoleNamesFromRoles(roles))), BulkCommandListType,
            [serviceRef.clusterName, serviceRef.serviceName, Ref(command.Name())])
  }

  // ---------------------------------------------------------------------------
  // Properties of the requests

  /** The third path variable of an action names the action: distinct actions
      send distinct requests. */
  lemma ActionCommandsAreDistinct(service: Service, a: ServiceCommand, b: ServiceCommand)
    requires service.clusterRef.Ref?
    ensures ActionCommandRequest(service, a).uriVariables[2] == Ref(a.Name())
    ensures ActionCommandRequest(service, a) == ActionCommandRequest(service, b) <==> a == b
  {
    if ActionCommandRequest(service, a) == ActionCommandRequest(service, b) {
      assert ActionCommandRequest(service, a).uriVariables[2] == Ref(a.Name());
      assert a.Name() == b.Name();
    }
  }

  /** Distinct role commands send distinct requests for the same roles. */
  lemma RoleCommandsAreDistinct(roles: seq<Role>, a: RoleCommand, b: RoleCommand)
    requires |roles| > 0 && roles[0].serviceRef.Ref?
    ensures RolesCommandRequest(roles, a) == RolesCommandRequest(roles, b) <==> a == b
  {
    if RolesCommandRequest(roles, a) == RolesCommandRequest(roles, b) {
      assert RolesCommandRequest(roles, a).uriVariables[2] == Ref(a.Name());
    }
  }

  /** An update always addresses the `full` view, the same URL a read of the
      full view uses, and carries the caller's configuration as its body. */
  lemma UpdateUsesFullView(service: Service, config: Nullable<Envelope<Config>>)
    requires service.clusterRef.Ref?
    ensures UpdateServiceConfigurationRequest(service, config).uriVariables
         == GetServiceConfigurationRequest(service, full).uriVariables
    ensures UpdateServiceConfigurationRequest(service, config).uriVariables[2] == Ref("full")
    ensures UpdateServiceConfigurationRequest(service, config).url == GetServiceConfigurationRequest(service, full).url
    ensures config.Ref? ==> UpdateServiceConfigurationRequest(service, config).body == Ref(ServiceConfigValue(config.value))
  {
  }

  /** The bulk role command looks at the first role's service reference only:
      two lists that agree on the first role and on the role names send the
      same request, whatever services the other roles belong to. */
  lemma RolesCommandTrustsFirstRole(roles: seq<Role>, others: seq<Role>, command: RoleCommand)
    requires |roles| > 0 && roles[0].serviceRef.Ref?
    requires |others| == |roles| && others[0] == roles[0]
    requires forall i | 0 <= i < |roles| :: others[i].name == roles[i].name
    ensures RolesCommandRequest(others, command) == RolesCommandRequest(roles, command)
  {
    assert RoleNamesFromRoles(others).items == RoleNamesFromRoles(roles).items;
  }

  /** A witness: a list holding roles of two different services is sent to the
      first role's service, and nothing refuses it. */
  lemma MixedServicesGoToFirst(command: RoleCommand)
    ensures var a := Role(Ref("dn1"), Ref(ServiceRef(Ref("c1"), Ref("hdfs1"))));
            var b := Role(Ref("rs1"), Ref(ServiceRef(Ref("c2"), Ref("hbase1"))));
            RolesCommandRequest([a, b], command).uriVariables
              == [Ref("c1"), Ref("hdfs1"), Ref(command.Name())]
  {
  }

  // ---------------------------------------------------------------------------

  /** The services facade (`ServiceServiceImpl`). */
  class ServiceServiceImpl {
    const http: HttpService

    constructor (httpService: HttpService)
      ensures http == httpService
    {
      http := httpService;
    }

    /** The services of a cluster; an empty list when the reply has none. */
    method GetAllServices(clusterName: JString) returns (services: seq<Service>)
      modifies http
      ensures http.log == old(http.log) + [GetAllServicesRequest(clusterName)]
      ensures services == ItemsOrEmpty(ServiceListOf(old(http.ReplyTo(GetAllServicesRequest(clusterName)))))
    {
      var serviceItems := http.Get(SERVICES_URL, ServiceListType, [clusterName]);
      if serviceItems.Null? || serviceItems.value.services.items.Null? {
        return [];
      }
      return serviceItems.value.services.items.value;
    }

    /** Creates the given services, posted in argument order in one envelope. */
    method CreateServices(clusterName: JString, services: seq<Service>) returns (created: seq<Service>)
      modifies http
      ensures http.log == old(http.log) + [CreateServicesRequest(clusterName, services)]
      ensures created == ItemsOrEmpty(ServiceListOf(old(http.ReplyTo(CreateServicesRequest(clusterName, services)))))
    {
      var serviceList := http.Post(SERVICES_URL, Ref(ServiceList(Envelope(Ref(services)))), ServiceListType, [clusterName]);
      if serviceList.Null? || serviceList.value.services.items.Null? {
        return [];
      }
      return serviceList.value.services.items.value;
    }

    /** Deletes one service; the reply is returned as it is. */
    method DeleteService(clusterName: JString, serviceName: JString) returns (deleted: Nullable<Service>)
      modifies http
      ensures http.log == old(http.log) + [DeleteServiceRequest(clusterName, serviceName)]
      ensures deleted == ServiceOf(old(http.ReplyTo(DeleteServiceRequest(clusterName, serviceName))))
    {
      var reply := http.Delete(SERVICE_URL, Null, ServiceType, [clusterName, serviceName]);
      deleted := ServiceOf(reply);
    }

    /** Reads one service; the reply is returned as it is. */
    method GetService(clusterName: JString, serviceName: JString) returns (service: Nullable<Service>)
      modifies http
      ensures http.log == old(http.log) + [GetServiceRequest(clusterName, serviceName)]
      ensures service == ServiceOf(old(http.ReplyTo(GetServiceRequest(clusterName, serviceName))))
    {
      var reply := http.Get(SERVICE_URL, ServiceType, [clusterName, serviceName]);
      service := ServiceOf(reply);
    }

    /** The configuration of a service in the given view; null when the reply
        or its items are absent, otherwise the whole envelope. */
    method GetServiceConfiguration(service: Service, view: View) returns (config: Nullable<Envelope<Config>>)
      requires service.clusterRef.Ref?
      modifies http
      ensures http.log == old(http.log) + [GetServiceConfigurationRequest(service, view)]
      ensures config == EnvelopeOrNull(ServiceConfigOf(old(http.ReplyTo(GetServiceConfigurationRequest(service, view)))))
    {
      var serviceConfigs := http.Get(SERVICE_CONFIG_URL, ServiceConfigType,
                                     [service.clusterRef.value.clusterName, service.name, Ref(view.Name())]);
      if serviceConfigs.Null? || serviceConfigs.value.serviceConfig.items.Null? {
        return Null;
      }
      return Ref(serviceConfigs.value.serviceConfig);
    }

    /** Replaces the configuration of a service, always in the `full` view. */
    method UpdateServiceConfiguration(service: Service, config: Nullable<Envelope<Config>>)
      returns (updated: Nullable<Envelope<Config>>)
      requires service.clusterRef.Ref?
      modifies http
      ensures http.log == old(http.log) + [UpdateServiceConfigurationRequest(service, config)]
      ensures updated == EnvelopeOrNull(ServiceConfigOf(old(http.ReplyTo(UpdateServiceConfigurationRequest(service, config)))))
    {
      var serviceConfigs := http.Put(SERVICE_CONFIG_URL, ServiceConfigBody(config), ServiceConfigType,
                                     [service.clusterRef.value.clusterName, service.name, Ref(full.Name())]);
      if serviceConfigs.Null? || serviceConfigs.value.serviceConfig.items.Null? {
        return Null;
      }
      return Ref(serviceConfigs.value.serviceConfig);
    }

    /** The running commands of a service; an empty list when the reply has none. */
    method GetActiveServiceCommands(clusterName: JString, serviceName: JString) returns (commands: seq<Command>)
      modifies http
      ensures http.log == old(http.log) + [GetActiveServiceCommandsRequest(clusterName, serviceName)]
      ensures commands == ItemsOrEmpty(CommandListOf(old(http.ReplyTo(GetActiveServiceCommandsRequest(clusterName, serviceName)))))
    {
      var commandList := http.Get(SERVICE_COMMANDS_URL, CommandListType, [clusterName, serviceName]);
      if commandList.Null? || commandList.value.commands.items.Null? {
        return [];
      }
      return commandList.value.commands.items.value;
    }

    method StartService(service: Service) returns (command: Nullable<Command>)
      requires service.clusterRef.Ref?
      modifies http
      ensures http.log == old(http.log) + [ActionCommandRequest(service, start)]
      ensures command == CommandOf(old(http.ReplyTo(ActionCommandRequest(service, start))))
    {
      command := ExecuteActionCommand(service, start);
    }

    method StopService(service: Service) returns (command: Nullable<Command>)
      requires service.clusterRef.Ref?
      modifies http
      ensures http.log == old(http.log) + [ActionCommandRequest(service, stop)]
      ensures command == CommandOf(old(http.ReplyTo(ActionCommandRequest(service, stop))))
    {
      command := ExecuteActionCommand(service, stop);
    }

    method RestartService(service: Service) returns (command: Nullable<Command>)
      requires service.clusterRef.Ref?
      modifies http
      ensures http.log == old(http.log) + [ActionCommandRequest(service, restart)]
      ensures command == CommandOf(old(http.ReplyTo(ActionCommandRequest(service, restart))))
    {
      command := ExecuteActionCommand(service, restart);
    }

    method ZooKeeperCleanup(service: Service) returns (command: Nullable<Command>)
      requires service.clusterRef.Ref?
      modifies http
      ensures http.log == old(http.log) + [ActionCommandRequest(service, zooKeeperCleanup)]
      ensures command == CommandOf(old(http.ReplyTo(ActionCommandRequest(service, zooKeeperCleanup))))
    {
      command := ExecuteActionCommand(service, zooKeeperCleanup);
    }

    method ZooKeeperInit(service: Service) returns (command: Nullable<Command>)
      requires service.clusterRef.Ref?
      modifies http
      ensures http.log == old(http.log) + [ActionCommandRequest(service, zooKeeperInit)]
      ensures command == CommandOf(old(http.ReplyTo(ActionCommandRequest(service, zooKeeperInit))))
    {
      command := ExecuteActionCommand(service, zooKeeperInit);
    }

    /** Posts a service command with no body; the command's name is the third path variable. */
    method ExecuteActionCommand(service: Service, command: ServiceCommand) returns (result: Nullable<Command>)
      requires service.clusterRef.Ref?
      modifies http
      ensures http.log == old(http.log) + [ActionCommandRequest(service, command)]
      ensures result == CommandOf(old(http.ReplyTo(ActionCommandRequest(service, command))))
    {
      var reply := http.Post(SERVICE_COMMANDS_ACTION_URL, Null, CommandType,
                             [service.clusterRef.value.clusterName, service.name, Ref(command.Name())]);
      result := CommandOf(reply);
    }

    /** The role types of a service; null, not an empty list, when the reply has none. */
    method GetRoleTypes(service: Service) returns (roleTypes: Nullable<seq<JString>>)
      requires service.clusterRef.Ref?
      modifies http
      ensures http.log == old(http.log) + [GetRoleTypesRequest(service)]
      ensures roleTypes == ItemsOrNull(RoleTypeListOf(old(http.ReplyTo(GetRoleTypesRequest(service)))))
    {
      var roleList := http.Get(ROLE_TYPES_URL, RoleTypeListType, [service.clusterRef.value.clusterName, service.name]);
      if roleList.Null? || roleList.value.roleTypes.items.Null? {
        return Null;
      }
      return roleList.value.roleTypes.items;
    }

    /** The roles of a service; null, not an empty list, when the reply has none. */
    method GetRoles(service: Service) returns (roles: Nullable<seq<Role>>)
      requires service.clusterRef.Ref?
      modifies http
      ensures http.log == old(http.log) + [GetRolesRequest(service)]
      ensures roles == ItemsOrNull(RoleListOf(old(http.ReplyTo(GetRolesRequest(service)))))
    {
      var roleList := http.Get(ROLES_URL, RoleListType, [service.clusterRef.value.clusterName, service.name]);
      if roleList.Null? || roleList.value.roles.items.Null? {
        return Null;
      }
      return roleList.value.roles.items;
    }

    method StartRoles(roles: Nullable<seq<Role>>) returns (result: Nullable<Envelope<Command>>)
      requires RolesCommandArgument(roles)
      modifies http
      ensures !IssuesRoleCommand(roles) ==> http.log == old(http.log) && result.Null?
      ensures IssuesRoleCommand(roles) ==>
        http.log == old(http.log) + [RolesCommandRequest(roles.value, startRoles)]
        && result == BulkCommandListOf(old(http.ReplyTo(RolesCommandRequest(roles.value, startRoles))))
    {
      result := RolesCommand(roles, startRoles);
    }

    method StopRoles(roles: Nullable<seq<Role>>) returns (result: Nullable<Envelope<Command>>)
      requires RolesCommandArgument(roles)
      modifies http
      ensures !IssuesRoleCommand(roles) ==> http.log == old(http.log) && result.Null?
      ensures IssuesRoleCommand(roles) ==>
        http.log == old(http.log) + [RolesCommandRequest(roles.value, stopRoles)]
        && result == BulkCommandListOf(old(http.ReplyTo(RolesCommandRequest(roles.value, stopRoles))))
    {
      result := RolesCommand(roles, stopRoles);
    }

    method RestartRoles(roles: Nullable<seq<Role>>) returns (result: Nullable<Envelope<Command>>)
      requires RolesCommandArgument(roles)
      modifies http
      ensures !IssuesRoleCommand(roles) ==> http.log == old(http.log) && result.Null?
      ensures IssuesRoleCommand(roles) ==>
        http.log == old(http.log) + [RolesCommandRequest(roles.value, restartRoles)]
        && result == BulkCommandListOf(old(http.ReplyTo(RolesCommandRequest(roles.value, restartRoles))))
    {
      result := RolesCommand(roles, restartRoles);
    }

    method RefreshRoles(roles: Nullable<seq<Role>>) returns (result: Nullable<Envelope<Command>>)
      requires RolesCommandArgument(roles)
      modifies http
      ensures !IssuesRoleCommand(roles) ==> http.log == old(http.log) && result.Null?
      ensures IssuesRoleCommand(roles) ==>
        http.log == old(http.log) + [RolesCommandRequest(roles.value, refreshRoles)]
        && result == BulkCommandListOf(old(http.ReplyTo(RolesCommandRequest(roles.value, refreshRoles))))
    {
      result := RolesCommand(roles, refreshRoles);
    }

    /** A bulk role command: nothing is sent for a null or empty list; otherwise
        one request addressed to the first role's service. */
    method RolesCommand(roles: Nullable<seq<Role>>, command: RoleCommand) returns (result: Nullable<Envelope<Command>>)
      requires RolesCommandArgument(roles)
      modifies http
      ensures !IssuesRoleCommand(roles) ==> http.log == old(http.log) && result.Null?
      ensures IssuesRoleCommand(roles) ==>
        http.log == old(http.log) + [RolesCommandRequest(roles.value, command)]
        && result == BulkCommandListOf(old(http.ReplyTo(RolesCommandRequest(roles.value, command))))
    {
      if roles.Ref? && |roles.value| > 0 {
        var serviceRef := roles.value[0].serviceRef.value;
        var roleNames := RoleNamesFromRoles(roles.value);
        var reply := http.Post(ROLE_COMMAND_URL, Ref(RoleNamesValue(roleNames)), BulkCommandListType,
                               [serviceRef.clusterName, serviceRef.serviceName, Ref(command.Name())]);
        return BulkCommandListOf(reply);
      }
      return Null;
    }
  }

  // ---------------------------------------------------------------------------

  /** The older services facade (`ServiceService`), the same logic under shorter action names. */
  class ServiceService {
    const http: HttpService

    constructor (httpService: HttpService)
      ensures http == httpService
    {
      http := httpService;
    }

    /** The services of a cluster; an empty list when the reply has none. */
    method GetAllServices(clusterName: JString) returns (services: seq<Service>)
      modifies http
      ensures http.log == old(http.log) + [GetAllServicesRequest(clusterName)]
      ensures services == ItemsOrEmpty(ServiceListOf(old(http.ReplyTo(GetAllServicesRequest(clusterName)))))
    {
      var serviceItems := http.Get(SERVICES_URL, ServiceListType, [clusterName]);
      if serviceItems.Null? || serviceItems.value.services.items.Null? {
        return [];
      }
      return serviceItems.value.services.items.value;
    }

    /** Creates the given services, posted in argument order in one envelope. */
    method CreateServices(clusterName: JString, services: seq<Service>) returns (created: seq<Service>)
      modifies http
      ensures http.log == old(http.log) + [CreateServicesRequest(clusterName, services)]
      ensures created == ItemsOrEmpty(ServiceListOf(old(http.ReplyTo(CreateServicesRequest(clusterName, services)))))
    {
      var serviceList := http.Post(SERVICES_URL, Ref(ServiceList(Envelope(Ref(services)))), ServiceListType, [clusterName]);
      if serviceList.Null? || serviceList.value.services.items.Null? {
        return [];
      }
      return serviceList.value.services.items.value;
    }

    /** Deletes one service; the reply is returned as it is. */
    method DeleteService(clusterName: JString, serviceName: JString) returns (deleted: Nullable<Service>)
      modifies http
      ensures http.log == old(http.log) + [DeleteServiceRequest(clusterName, serviceName)]
      ensures deleted == ServiceOf(old(http.ReplyTo(DeleteServiceRequest(clusterName, serviceName))))
    {
      var reply := http.Delete(SERVICE_URL, Null, ServiceType, [clusterName, serviceName]);
      deleted := ServiceOf(reply);
    }

    /** Reads one service; the reply is returned as it is. */
    method GetService(clusterName: JString, serviceName: JString) returns (service: Nullable<Service>)
      modifies http
      ensures http.log == old(http.log) + [GetServiceRequest(clusterName, serviceName)]
      ensures service == ServiceOf(old(http.ReplyTo(GetServiceRequest(clusterName, serviceName))))
    {
      var reply := http.Get(SERVICE_URL, ServiceType, [clusterName, serviceName]);
      service := ServiceOf(reply);
    }

    /** The configuration of a service in the given view; null when the reply
        or its items are absent, otherwise the whole envelope. */
    method GetServiceConfiguration(service: Service, view: View) returns (config: Nullable<Envelope<Config>>)
      requires service.clusterRef.Ref?
      modifies http
      ensures http.log == old(http.log) + [GetServiceConfigurationRequest(service, view)]
      ensures config == EnvelopeOrNull(ServiceConfigOf(old(http.ReplyTo(GetServiceConfigurationRequest(service, view)))))
    {
      var serviceConfigs := http.Get(SERVICE_CONFIG_URL, ServiceConfigType,
                                     [service.clusterRef.value.clusterName, service.name, Ref(view.Name())]);
      if serviceConfigs.Null? || serviceConfigs.value.serviceConfig.items.Null? {
        return Null;
      }
      return Ref(serviceConfigs.value.serviceConfig);
    }

    /** Replaces the configuration of a service, always in the `full` view. */
    method UpdateServiceConfiguration(service: Service, config: Nullable<Envelope<Config>>)
      returns (updated: Nullable<Envelope<Config>>)
      requires service.clusterRef.Ref?
      modifies http
      ensures http.log == old(http.log) + [UpdateServiceConfigurationRequest(service, config)]
      ensures updated == EnvelopeOrNull(ServiceConfigOf(old(http.ReplyTo(UpdateServiceConfigurationRequest(service, config)))))
    {
      var serviceConfigs := http.Put(SERVICE_CONFIG_URL, ServiceConfigBody(config), ServiceConfigType,
                                     [service.clusterRef.value.clusterName, service.name, Ref(full.Name())]);
      if serviceConfigs.Null? || serviceConfigs.value.serviceConfig.items.Null? {
        return Null;
      }
      return Ref(serviceConfigs.value.serviceConfig);
    }

    /** The running commands of a service; an empty list when the reply has none. */
    method GetActiveServiceCommands(clusterName: JString, serviceName: JString) returns (commands: seq<Command>)
      modifies http
      ensures http.log == old(http.log) + [GetActiveServiceCommandsRequest(clusterName, serviceName)]
      ensures commands == ItemsOrEmpty(CommandListOf(old(http.ReplyTo(GetActiveServiceCommandsRequest(clusterName, serviceName)))))
    {
      var commandList := http.Get(SERVICE_COMMANDS_URL, CommandListType, [clusterName, serviceName]);
      if commandList.Null? || commandList.value.commands.items.Null? {
        return [];
      }
      return commandList.value.commands.items.value;
    }

    method Start(service: Service) returns (command: Nullable<Command>)
      requires service.clusterRef.Ref?
      modifies http
      ensures http.log == old(http.log) + [ActionCommandRequest(service, start)]
      ensures command == CommandOf(old(http.ReplyTo(ActionCommandRequest(service, start))))
    {
      command := ExecuteActionCommand(service, start);
    }

    method Stop(service: Service) returns (command: Nullable<Command>)
      requires service.clusterRef.Ref?
      modifies http
      ensures http.log == old(http.log) + [ActionCommandRequest(service, stop)]
      ensures command == CommandOf(old(http.ReplyTo(ActionCommandRequest(service, stop))))
    {
      command := ExecuteActionCommand(service, stop);
    }

    method Restart(service: Service) returns (command: Nullable<Command>)
      requires service.clusterRef.Ref?
      modifies http
      ensures http.log == old(http.log) + [ActionCommandRequest(service, restart)]
      ensures command == CommandOf(old(http.ReplyTo(ActionCommandRequest(service, restart))))
    {
      command := ExecuteActionCommand(service, restart);
    }

    method ZooKeeperCleanup(service: Service) returns (command: Nullable<Command>)
      requires service.clusterRef.Ref?
      modifies http
      ensures http.log == old(http.log) + [ActionCommandRequest(service, zooKeeperCleanup)]
      ensures command == CommandOf(old(http.ReplyTo(ActionCommandRequest(service, zooKeeperCleanup))))
    {
      command := ExecuteActionCommand(service, zooKeeperCleanup);
    }

    method ZooKeeperInit(service: Service) returns (command: Nullable<Command>)
      requires service.clusterRef.Ref?
      modifies http
      ensures http.log == old(http.log) + [ActionCommandRequest(service, zooKeeperInit)]
      ensures command == CommandOf(old(http.ReplyTo(ActionCommandRequest(service, zooKeeperInit))))
    {
      command := ExecuteActionCommand(service, zooKeeperInit);
    }

    /** Posts a service command with no body; the command's name is the third path variable. */
    method ExecuteActionCommand(service: Service, command: ServiceCommand) returns (result: Nullable<Command>)
      requires service.clusterRef.Ref?
      modifies http
      ensures http.log == old(http.log) + [ActionCommandRequest(service, command)]
      ensures result == CommandOf(old(http.ReplyTo(ActionCommandRequest(service, command))))
    {
      var reply := http.Post(SERVICE_COMMANDS_ACTION_URL, Null, CommandType,
                             [service.clusterRef.value.clusterName, service.name, Ref(command.Name())]);
      result := CommandOf(reply);
    }

    /** The role types of a service; null, not an empty list, when the reply has none. */
    method GetRoleTypes(service: Service) returns (roleTypes: Nullable<seq<JString>>)
      requires service.clusterRef.Ref?
      modifies http
      ensures http.log == old(http.log) + [GetRoleTypesRequest(service)]
      ensures roleTypes == ItemsOrNull(RoleTypeListOf(old(http.ReplyTo(GetRoleTypesRequest(service)))))
    {
      var roleList := http.Get(ROLE_TYPES_URL, RoleTypeListType, [service.clusterRef.value.clusterName, service.name]);
      if roleList.Null? || roleList.value.roleTypes.items.Null? {
        return Null;
      }
      return roleList.value.roleTypes.items;
    }

    /** The roles of a service; null, not an empty list, when the reply has none. */
    method GetRoles(service: Service) returns (roles: Nullable<seq<Role>>)
      requires service.clusterRef.Ref?
      modifies http
      ensures http.log == old(http.log) + [GetRolesRequest(service)]
      ensures roles == ItemsOrNull(RoleListOf(old(http.ReplyTo(GetRolesRequest(service)))))
    {
      var roleList := http.Get(ROLES_URL, RoleListType, [service.clusterRef.value.clusterName, service.name]);
      if roleList.Null? || roleList.value.roles.items.Null? {
        return Null;
      }
      return roleList.value.roles.items;
    }

    method StartRoles(roles: Nullable<seq<Role>>) returns (result: Nullable<Envelope<Command>>)
      requires RolesCommandArgument(roles)
      modifies http
      ensures !IssuesRoleCommand(roles) ==> http.log == old(http.log) && result.Null?
      ensures IssuesRoleCommand(roles) ==>
        http.log == old(http.log) + [RolesCommandRequest(roles.value, startRoles)]
        && result == BulkCommandListOf(old(http.ReplyTo(RolesCommandRequest(roles.value, startRoles))))
    {
      result := RolesCommand(roles, startRoles);
    }

    method StopRoles(roles: Nullable<seq<Role>>) returns (result: Nullable<Envelope<Command>>)
      requires RolesCommandArgument(roles)
      modifies http
      ensures !IssuesRoleCommand(roles) ==> http.log == old(http.log) && result.Null?
      ensures IssuesRoleCommand(roles) ==>
        http.log == old(http.log) + [RolesCommandRequest(roles.value, stopRoles)]
        && result == BulkCommandListOf(old(http.ReplyTo(RolesCommandRequest(roles.value, stopRoles))))
    {
      result := RolesCommand(roles, stopRoles);
    }

    method RestartRoles(roles: Nullable<seq<Role>>) returns (result: Nullable<Envelope<Command>>)
      requires RolesCommandArgument(roles)
      modifies http
      ensures !IssuesRoleCommand(roles) ==> http.log == old(http.log) && result.Null?
      ensures IssuesRoleCommand(roles) ==>
        http.log == old(http.log) + [RolesCommandRequest(roles.value, restartRoles)]
        && result == BulkCommandListOf(old(http.ReplyTo(RolesCommandRequest(roles.value, restartRoles))))
    {
      result := RolesCommand(roles, restartRoles);
    }

    method RefreshRoles(roles: Nullable<seq<Role>>) returns (result: Nullable<Envelope<Command>>)
      requires RolesCommandArgument(roles)
      modifies http
      ensures !IssuesRoleCommand(roles) ==> http.log == old(http.log) && result.Null?
      ensures IssuesRoleCommand(roles) ==>
        http.log == old(http.log) + [RolesCommandRequest(roles.value, refreshRoles)]
        && result == BulkCommandListOf(old(http.ReplyTo(RolesCommandRequest(roles.value, refreshRoles))))
    {
      result := RolesCommand(roles, refreshRoles);
    }

    /** A bulk role command: nothing is sent for a null or empty list; otherwise
        one request addressed to the first role's service. */
    method RolesCommand(roles: Nullable<seq<Role>>, command: RoleCommand) returns (result: Nullable<Envelope<Command>>)
      requires RolesCommandArgument(roles)
      modifies http
      ensures !IssuesRoleCommand(roles) ==> http.log == old(http.log) && result.Null?
      ensures IssuesRoleCommand(roles) ==>
        http.log == old(http.log) + [RolesCommandRequest(roles.value, command)]
        && result == BulkCommandListOf(old(http.ReplyTo(RolesCommandRequest(roles.value, command))))
    {
      if roles.Ref? && |roles.value| > 0 {
        var serviceRef := roles.value[0].serviceRef.value;
        var roleNames := RoleNamesFromRoles(roles.value);
        var reply := http.Post(ROLE_COMMAND_URL, Ref(RoleNamesValue(roleNames)), BulkCommandListType,
                               [serviceRef.clusterName, serviceRef.serviceName, Ref(command.Name())]);
        return BulkCommandListOf(reply);
      }
      return Null;
    }
  }
}
