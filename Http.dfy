/**
  The HTTP collaborator of the resource facades (the `HttpService` interface):
  four verbs, each taking a URL template, an optional request body, the class
  the reply is read as, and the path variables that fill the template.

  The collaborator is modelled as a class that records every request it is
  given, in order, and answers each one from a server oracle. The oracle sees
  the whole history, so it stands for any server whose state depends on the
  requests it has already served. Java's typing of the reply (`Class<R>`) is
  kept: a reply is either null or an object of the requested class.
 */
module Http {
  import opened JavaLang
  import opened Domain

  datatype Verb = GET | POST | PUT | DELETE

  /** The `Class<R>` argument: what the reply body is read as. */
  datatype ResponseType =
    | ServiceListType | ServiceType | ServiceConfigType
    | CommandListType | CommandType | BulkCommandListType
    | RoleListType | RoleTypeListType | RoleNamesType
    | HostListType | HostType | ConfigListType | MetricListType
    | ClusterListType | ClusterType
    | UserListType | UserType

  /** A `...List` class of the REST API: an envelope around an `items` list. */
  datatype Envelope<T> = Envelope(items: Nullable<seq<T>>)

  /** A request or reply body. */
  datatype Payload =
    | ServiceList(services: Envelope<Service>)
    | ServiceValue(service: Service)
    | ServiceConfigValue(serviceConfig: Envelope<Config>)
    | CommandList(commands: Envelope<Command>)
    | CommandValue(command: Command)
    | BulkCommandList(bulkCommands: Envelope<Command>)
    | RoleList(roles: Envelope<Role>)
    | RoleTypeList(roleTypes: Envelope<JString>)
    | RoleNamesValue(roleNames: RoleNames)
    | HostList(hosts: Envelope<Host>)
    | HostValue(host: Host)
    | ConfigList(configs: Envelope<Config>)
    | MetricList(metrics: Envelope<Metric>)
    | ClusterList(clusters: Envelope<Cluster>)
    | ClusterValue(cluster: Cluster)
    | UserList(users: Envelope<User>)
    | UserValue(user: User)
  {
    /** The class of this body. */
    function TypeOf(): ResponseType
    {
      match this
      case ServiceList(_) => ServiceListType
      case ServiceValue(_) => ServiceType
      case ServiceConfigValue(_) => ServiceConfigType
      case CommandList(_) => CommandListType
      case CommandValue(_) => CommandType
      case BulkCommandList(_) => BulkCommandListType
      case RoleList(_) => RoleListType
      case RoleTypeList(_) => RoleTypeListType
      case RoleNamesValue(_) => RoleNamesType
      case HostList(_) => HostListType
      case HostValue(_) => HostType
      case ConfigList(_) => ConfigListType
      case MetricList(_) => MetricListType
      case ClusterList(_) => ClusterListType
      case ClusterValue(_) => ClusterType
      case UserList(_) => UserListType
      case UserValue(_) => UserType
    }
  }

  /** One request descriptor: verb, URL template, body, reply class and the
      ordered path variables. */
  datatype Request = Request(
    verb: Verb,
    url: string,
    body: Nullable<Payload>,
    responseType: ResponseType,
    uriVariables: seq<JString>)

  /** A reply is null or an object of the class that was asked for. */
  predicate Conforms(reply: Nullable<Payload>, t: ResponseType)
  {
    reply.Ref? ==> reply.value.TypeOf() == t
  }

  /** A server: the reply to a request, given every request served before it. */
  type Server = f: (seq<Request>, Request) -> Nullable<Payload>
    | forall history, req :: Conforms(f(history, req), req.responseType)
    witness (history: seq<Request>, req: Request) => Null

  // ---------------------------------------------------------------------------
  // Reading a reply as the class that was asked for

  function ServiceListOf(r: Nullable<Payload>): Nullable<Envelope<Service>>
    requires Conforms(r, ServiceListType)
  {
    if r.Null? then Null else Ref(r.value.services)
  }

  function ServiceOf(r: Nullable<Payload>): Nullable<Service>
    requires Conforms(r, ServiceType)
  {
    if r.Null? then Null else Ref(r.value.service)
  }

  function ServiceConfigOf(r: Nullable<Payload>): Nullable<Envelope<Config>>
    requires Conforms(r, ServiceConfigType)
  {
    if r.Null? then Null else Ref(r.value.serviceConfig)
  }

  function CommandListOf(r: Nullable<Payload>): Nullable<Envelope<Command>>
    requires Conforms(r, CommandListType)
  {
    if r.Null? then Null else Ref(r.value.commands)
  }

  function CommandOf(r: Nullable<Payload>): Nullable<Command>
    requires Conforms(r, CommandType)
  {
    if r.Null? then Null else Ref(r.value.command)
  }

  function BulkCommandListOf(r: Nullable<Payload>): Nullable<Envelope<Command>>
    requires Conforms(r, BulkCommandListType)
  {
    if r.Null? then Null else Ref(r.value.bulkCommands)
  }

  function RoleListOf(r: Nullable<Payload>): Nullable<Envelope<Role>>
    requires Conforms(r, RoleListType)
  {
    if r.Null? then Null else Ref(r.value.roles)
  }

  function RoleTypeListOf(r: Nullable<Payload>): Nullable<Envelope<JString>>
    requires Conforms(r, RoleTypeListType)
  {
    if r.Null? then Null else Ref(r.value.roleTypes)
  }

  function HostListOf(r: Nullable<Payload>): Nullable<Envelope<Host>>
    requires Conforms(r, HostListType)
  {
    if r.Null? then Null else Ref(r.value.hosts)
  }

  function HostOf(r: Nullable<Payload>): Nullable<Host>
    requires Conforms(r, HostType)
  {
    if r.Null? then Null else Ref(r.value.host)
  }

  function ConfigListOf(r: Nullable<Payload>): Nullable<Envelope<Config>>
    requires Conforms(r, ConfigListType)
  {
    if r.Null? then Null else Ref(r.value.configs)
  }

  function MetricListOf(r: Nullable<Payload>): Nullable<Envelope<Metric>>
    requires Conforms(r, MetricListType)
  {
    if r.Null? then Null else Ref(r.value.metrics)
  }

  function ClusterListOf(r: Nullable<Payload>): Nullable<Envelope<Cluster>>
    requires Conforms(r, ClusterListType)
  {
    if r.Null? then Null else Ref(r.value.clusters)
  }

  function ClusterOf(r: Nullable<Payload>): Nullable<Cluster>
    requires Conforms(r, ClusterType)
  {
    if r.Null? then Null else Ref(r.value.cluster)
  }

  function UserListOf(r: Nullable<Payload>): Nullable<Envelope<User>>
    requires Conforms(r, UserListType)
  {
    if r.Null? then Null else Ref(r.value.users)
  }

  function UserOf(r: Nullable<Payload>): Nullable<User>
    requires Conforms(r, UserType)
  {
    if r.Null? then Null else Ref(r.value.user)
  }

  // ---------------------------------------------------------------------------
  // The four ways the facades unwrap an envelope

  /** The envelope is there and so is its `items` list. */
  predicate HasItems<T>(e: Nullable<Envelope<T>>)
  {
    e.Ref? && e.value.items.Ref?
  }

  /** Most list getters: an absent envelope or absent items become an empty list. */
  function ItemsOrEmpty<T>(e: Nullable<Envelope<T>>): seq<T>
  {
    if e.Null? || e.value.items.Null? then [] else e.value.items.value
  }

  /** `getRoles`, `getRoleTypes`: an absent envelope or absent items become null. */
  function ItemsOrNull<T>(e: Nullable<Envelope<T>>): Nullable<seq<T>>
  {
    if e.Null? || e.value.items.Null? then Null else e.value.items
  }

  /** Service configuration: the whole envelope, or null when it or its items are absent. */
  function EnvelopeOrNull<T>(e: Nullable<Envelope<T>>): Nullable<Envelope<T>>
  {
    if e.Null? || e.value.items.Null? then Null else e
  }

  /** Host configuration: null only for an absent envelope; the items are not checked. */
  function ItemsUnchecked<T>(e: Nullable<Envelope<T>>): Nullable<seq<T>>
  {
    if e.Ref? then e.value.items else Null
  }

  /** How the rules relate. Null comes back exactly when the envelope or its
      items are absent, and checking only the envelope gives the same result
      as checking both, since absent items are returned as null either way. */
  lemma UnwrapRules<T>(e: Nullable<Envelope<T>>)
    ensures ItemsOrNull(e).Ref? <==> HasItems(e)
    ensures ItemsUnchecked(e) == ItemsOrNull(e)
  {
  }

  /** Wrapping a list in an envelope and unwrapping it gives the list back,
      unchanged and in order, under every rule. */
  lemma EnvelopeRoundTrip<T>(xs: seq<T>)
    ensures ItemsOrEmpty(Ref(Envelope(Ref(xs)))) == xs
    ensures ItemsOrNull(Ref(Envelope(Ref(xs)))) == Ref(xs)
    ensures EnvelopeOrNull(Ref(Envelope(Ref(xs)))) == Ref(Envelope(Ref(xs)))
    ensures ItemsUnchecked(Ref(Envelope(Ref(xs)))) == Ref(xs)
  {
  }

  // ---------------------------------------------------------------------------
  // The collaborator

  class HttpService {
    /** Every request issued so far, oldest first. */
    var log: seq<Request>

    /** The server that answers. */
    const server: Server

    constructor (server: Server)
      ensures this.server == server && log == []
    {
      this.server := server;
      log := [];
    }

    /** The reply the next request would get. */
    function ReplyTo(req: Request): (r: Nullable<Payload>)
      reads this
      ensures Conforms(r, req.responseType)
    {
      server(log, req)
    }

    /** `get(url, responseType, uriVariables...)`: a GET carries no body. */
    method Get(url: string, responseType: ResponseType, uriVariables: seq<JString>)
      returns (r: Nullable<Payload>)
      modifies this
      ensures log == old(log) + [Request(GET, url, Null, responseType, uriVariables)]
      ensures r == old(ReplyTo(Request(GET, url, Null, responseType, uriVariables)))
    {
      var req := Request(GET, url, Null, responseType, uriVariables);
      r := server(log, req);
      log := log + [req];
    }

    /** `post(url, request, responseType, uriVariables...)`. */
    method Post(url: string, request: Nullable<Payload>, responseType: ResponseType, uriVariables: seq<JString>)
      returns (r: Nullable<Payload>)
      modifies this
      ensures log == old(log) + [Request(POST, url, request, responseType, uriVariables)]
      ensures r == old(ReplyTo(Request(POST, url, request, responseType, uriVariables)))
    {
      var req := Request(POST, url, request, responseType, uriVariables);
      r := server(log, req);
      log := log + [req];
    }

    /** `delete(url, request, responseType, uriVariables...)`. */
    method Delete(url: string, request: Nullable<Payload>, responseType: ResponseType, uriVariables: seq<JString>)
      returns (r: Nullable<Payload>)
      modifies this
      ensures log == old(log) + [Request(DELETE, url, request, responseType, uriVariables)]
      ensures r == old(ReplyTo(Request(DELETE, url, request, responseType, uriVariables)))
    {
      var req := Request(DELETE, url, request, responseType, uriVariables);
      r := server(log, req);
      log := log + [req];
    }

    /** `put(url, request, responseType, uriVariables...)`. */
    method Put(url: string, request: Nullable<Payload>, responseType: ResponseType, uriVariables: seq<JString>)
      returns (r: Nullable<Payload>)
      modifies this
      ensures log == old(log) + [Request(PUT, url, request, responseType, uriVariables)]
      ensures r == old(ReplyTo(Request(PUT, url, request, responseType, uriVariables)))
    {
      var req := Request(PUT, url, request, responseType, uriVariables);
      r := server(log, req);
      log := log + [req];
    }
  }
}
