# Cloudera Manager Java client — a verified model

The Cloudera Manager Java client is a thin REST client for the Cloudera Manager API (version 1). This project models in Dafny what the client's own code decides. HTTP transport, URL-template substitution and JSON mapping are left to a library, so they are not part of the model.

- **Resource facades.** `ServiceServiceImpl` and its older twin `ServiceService`, `HostServiceImpl`, `ClusterServiceImpl` and `UserServiceImpl` live in `ServiceFacade.dfy`, `HostFacade.dfy`, `ClusterFacade.dfy` and `UserFacade.dfy`.
  - Each public method builds one request descriptor: verb, URL template, optional body, reply class, and the ordered path variables.
  - It hands the descriptor to the HTTP collaborator, then unwraps the `items` envelope of the reply.
  - An absent envelope or absent items become an empty list, `null`, or the whole envelope, depending on the method.
- **The HTTP collaborator** (`HttpService`, `Http.dfy`) is a class with two parts:
  - a log of every request issued, oldest first;
  - a server oracle that answers each request from the history before it. A reply is null or an object of the requested class.

  Every facade method states the exact log entry it appends (or that it appends none) and which unwrap rule it applies to the reply.
- **Lazy facade cache** (`ClouderaManagerImpl`, `ConfigurationManager`, `Managers.dfy`).
  - Four nullable fields. Each is built on first use and then returned unchanged.
  - Every facade is wired to the one collaborator fixed at construction.
- **Desktop HTTP collaborator** (`SimpleHttpService`, `SimpleHttp.dfy`).
  - The default headers, including the `Authorization` value. That value uses the Basic scheme of section 2 of RFC 7617 over the base64 alphabet and padding of section 4 of RFC 4648 (`Base64.dfy`).
  - The base URL and timeouts set by the two constructors.
  - The target `baseUrl + url` of every verb.
- **Key-based identity** (`Domain.dfy`). `equals` and `hashCode` of `User`, `Event`, `EventAttribute`, `Metric` and `Nameservice`, in Java `int` arithmetic with `String.hashCode` over UTF-16 units (`JavaLang.dfy`).

## Modelling choices

- A Java reference that may be null is `Nullable<T>`.
- A service's `clusterRef` and the first role's `serviceRef` are dereferenced without a check. The model requires them to be non-null.
- Reference identity (`this == obj`) in `equals` is modelled as equality of the whole value.
- The argument of `equals(Object)` is a union of the classes above plus "any other class".
- `String.getBytes()` is taken to use UTF-8 as the default charset.
- The enums shared by `ServiceServiceImpl` and `ServiceService` (`View`, `ServiceCommand`, `RoleCommand`) are defined once.
- Source behaviour that looks unintended is modelled exactly as written, and a lemma states it:
  - Every cluster action goes through one helper that always submits `upgradeServices` (`ClusterActionsAllUpgradeServices`).
  - The bulk role command addresses the first role's service and never checks the others (`RolesCommandTrustsFirstRole`, `MixedServicesGoToFirst`).
  - The host/port constructor formats its base URL as the host name followed by the literal `:si`, and ignores the port (`HostBaseUrlIgnoresPort`).
- The Java sources are not consistent with one another: `ServiceServiceImpl` declares that it implements `ServiceService`, which is itself a class. The model follows each class's code and ignores that type hierarchy.

## Model

| member | source | states |
|---|---|---|
| JavaLang.Wrap | cm-domain/src/main/java/com/logaritex/hadoop/configuration/manager/domain/Metric.java:116-124 | the result is the Java `int` congruent to the exact value modulo 2^32, and equals it when it is already in range |
| JavaLang.WrapMulAdd | cm-domain/src/main/java/com/logaritex/hadoop/configuration/manager/domain/Metric.java:116-124 | one `31 * h + c` step gives the same `int` whether `h` was wrapped before or not |
| JavaLang.HashUnitsIsWrappedPolynomial | cm-domain/src/main/java/com/logaritex/hadoop/configuration/manager/domain/User.java:88-94 | `String.hashCode`'s loop over UTF-16 units equals the exact polynomial in 31, reduced once to an `int` |
| JavaLang.Utf16 | cm-domain/src/main/java/com/logaritex/hadoop/configuration/manager/domain/User.java:88-94 | a character is one UTF-16 unit below U+10000 and otherwise a high surrogate followed by a low surrogate |
| Base64.Encode | cm-java-client/src/main/java/com/logaritex/hadoop/configuration/manager/SimpleHttpService.java:110 | the encoding of n bytes has 4 * ceil(n / 3) characters |
| Base64.DecodeEncode | cm-java-client/src/main/java/com/logaritex/hadoop/configuration/manager/SimpleHttpService.java:110 | decoding the base64 encoding of any byte sequence gives the bytes back |
| Base64.EncodeDecode | cm-java-client/src/main/java/com/logaritex/hadoop/configuration/manager/SimpleHttpService.java:110 | any string the canonical decoder accepts is the encoding of what it decodes to |
| Base64.EncodeAlphabet | cm-java-client/src/main/java/com/logaritex/hadoop/configuration/manager/SimpleHttpService.java:110 | an encoding uses only the 64-character alphabet, with `=` only among its last two characters |
| Base64.ValueOf | cm-java-client/src/main/java/com/logaritex/hadoop/configuration/manager/SimpleHttpService.java:110 | the value of an alphabet character is the one the alphabet maps to that character |
| Base64.CharOfIsAlphabet | cm-java-client/src/main/java/com/logaritex/hadoop/configuration/manager/SimpleHttpService.java:110 | every 6-bit value maps to an alphabet character, and back |
| Domain.FieldEquals | cm-domain/src/main/java/com/logaritex/hadoop/configuration/manager/domain/User.java:105-108 | a null key equals only a null key; a non-null key equals exactly the same string |
| Domain.NewUser | cm-domain/src/main/java/com/logaritex/hadoop/configuration/manager/domain/User.java:52-57 | the constructor stores exactly the given name, password and roles; the new user equals every user of that name |
| Domain.UserEquals | cm-domain/src/main/java/com/logaritex/hadoop/configuration/manager/domain/User.java:96-111 | a user equals an object iff it is a user with the same name; password and roles are ignored |
| Domain.UserEqualsIsEquivalence | cm-domain/src/main/java/com/logaritex/hadoop/configuration/manager/domain/User.java:96-111 | reflexive, symmetric, transitive, false for null and for another class |
| Domain.UserHashCode | cm-domain/src/main/java/com/logaritex/hadoop/configuration/manager/domain/User.java:88-94 | 31 * 1 + hash(name) in Java `int` arithmetic: congruent to it modulo 2^32; 31 for a null name |
| Domain.UserHashCodeConsistent | cm-domain/src/main/java/com/logaritex/hadoop/configuration/manager/domain/User.java:88-94 | equal users have equal hash codes; the hash depends on the name only |
| Domain.EventEquals | cm-domain/src/main/java/com/logaritex/hadoop/configuration/manager/domain/Event.java:246-261 | an event equals an object iff it is an event with the same id; other fields are ignored |
| Domain.EventEqualsIsEquivalence | cm-domain/src/main/java/com/logaritex/hadoop/configuration/manager/domain/Event.java:246-261 | reflexive, symmetric, transitive, false for null and for another class |
| Domain.EventHashCode | cm-domain/src/main/java/com/logaritex/hadoop/configuration/manager/domain/Event.java:238-244 | 31 * 1 + hash(id) in Java `int` arithmetic: congruent to it modulo 2^32; 31 for a null id |
| Domain.EventHashCodeConsistent | cm-domain/src/main/java/com/logaritex/hadoop/configuration/manager/domain/Event.java:238-244 | equal events have equal hash codes; the hash depends on the id only |
| Domain.EventAttributeEquals | cm-domain/src/main/java/com/logaritex/hadoop/configuration/manager/domain/Event.java:114-129 | an attribute equals an object iff it is an attribute with the same name; values are ignored |
| Domain.EventAttributeEqualsIsEquivalence | cm-domain/src/main/java/com/logaritex/hadoop/configuration/manager/domain/Event.java:114-129 | reflexive, symmetric, transitive, false for null and for another class |
| Domain.EventAttributeHashCode | cm-domain/src/main/java/com/logaritex/hadoop/configuration/manager/domain/Event.java:106-112 | 31 * 1 + hash(name) in Java `int` arithmetic: congruent to it modulo 2^32; 31 for a null name |
| Domain.EventAttributeHashCodeConsistent | cm-domain/src/main/java/com/logaritex/hadoop/configuration/manager/domain/Event.java:106-112 | equal attributes have equal hash codes; the hash depends on the name only |
| Domain.MetricEquals | cm-domain/src/main/java/com/logaritex/hadoop/configuration/manager/domain/Metric.java:126-151 | a metric equals an object iff it is a metric with the same context, name and unit, each null only against null |
| Domain.MetricEqualsIsEquivalence | cm-domain/src/main/java/com/logaritex/hadoop/configuration/manager/domain/Metric.java:126-151 | reflexive, symmetric, transitive, false for null and for another class |
| Domain.MetricHashCode | cm-domain/src/main/java/com/logaritex/hadoop/configuration/manager/domain/Metric.java:116-124 | context, then name, then unit folded with 31 from a seed of 1 in `int` arithmetic: the closed form 31^3 + 31^2 hash(context) + 31 hash(name) + hash(unit) wrapped once; 29791 when all three are null |
| Domain.WrapFoldThree | cm-domain/src/main/java/com/logaritex/hadoop/configuration/manager/domain/Metric.java:116-124 | three wrapped `31 * h + c` steps from seed 1 equal the closed form wrapped once |
| Domain.MetricHashCodeConsistent | cm-domain/src/main/java/com/logaritex/hadoop/configuration/manager/domain/Metric.java:116-124 | equal metrics have equal hash codes; data, display name and description are not hashed |
| Domain.NameserviceEquals | cm-domain/src/main/java/com/logaritex/hadoop/configuration/manager/domain/Nameservice.java:163-178 | a nameservice equals an object iff it is a nameservice with the same name |
| Domain.NameserviceEqualsIsEquivalence | cm-domain/src/main/java/com/logaritex/hadoop/configuration/manager/domain/Nameservice.java:163-178 | reflexive, symmetric, transitive, false for null and for another class |
| Domain.NameserviceHashCode | cm-domain/src/main/java/com/logaritex/hadoop/configuration/manager/domain/Nameservice.java:155-161 | 31 * 1 + hash(name) in Java `int` arithmetic: congruent to it modulo 2^32; 31 for a null name |
| Domain.NameserviceHashCodeConsistent | cm-domain/src/main/java/com/logaritex/hadoop/configuration/manager/domain/Nameservice.java:155-161 | equal nameservices have equal hash codes; the hash depends on the name only |
| Domain.RoleNamesFromRoles | cm-services/src/main/java/com/logaritex/hadoop/configuration/manager/service/impl/ServiceServiceImpl.java:307 | the bulk body lists the names of the given roles, one per role, in order |
| Http.UnwrapRules | cm-services/src/main/java/com/logaritex/hadoop/configuration/manager/service/HostServiceImpl.java:103-111 | null comes back exactly when the envelope or its items are absent; checking only the envelope (host configuration) gives the same result as checking envelope and items |
| Http.EnvelopeRoundTrip | cm-services/src/main/java/com/logaritex/hadoop/configuration/manager/service/impl/ServiceServiceImpl.java:96-106 | a list wrapped in an envelope comes back unchanged and in order under every unwrap rule |
| Http.HttpService.constructor | cm-services/src/main/java/com/logaritex/hadoop/configuration/manager/service/HttpService.java:27 | the collaborator starts with an empty request log and the given server |
| Http.HttpService.ReplyTo | cm-services/src/main/java/com/logaritex/hadoop/configuration/manager/service/HttpService.java:40 | a reply is null or an object of the class the request asked for |
| Http.HttpService.Get | cm-services/src/main/java/com/logaritex/hadoop/configuration/manager/service/HttpService.java:40 | appends one GET with no body to the log; returns the server's reply to it |
| Http.HttpService.Post | cm-services/src/main/java/com/logaritex/hadoop/configuration/manager/service/HttpService.java:55 | appends one POST with the given body to the log; returns the server's reply to it |
| Http.HttpService.Delete | cm-services/src/main/java/com/logaritex/hadoop/configuration/manager/service/HttpService.java:66 | appends one DELETE with the given body to the log; returns the server's reply to it |
| Http.HttpService.Put | cm-services/src/main/java/com/logaritex/hadoop/configuration/manager/service/HttpService.java:77 | appends one PUT with the given body to the log; returns the server's reply to it |
| ServiceFacade.ActionCommandsAreDistinct | cm-services/src/main/java/com/logaritex/hadoop/configuration/manager/service/impl/ServiceServiceImpl.java:180-236 | each service action posts with the action's name as third path variable; distinct actions send distinct requests |
| ServiceFacade.RoleCommandsAreDistinct | cm-services/src/main/java/com/logaritex/hadoop/configuration/manager/service/impl/ServiceServiceImpl.java:276-302 | distinct role commands send distinct requests for the same roles |
| ServiceFacade.UpdateUsesFullView | cm-services/src/main/java/com/logaritex/hadoop/configuration/manager/service/impl/ServiceServiceImpl.java:146-158 | an update targets the `full` view whatever view the caller reads, and carries the caller's configuration as its body |
| ServiceFacade.RolesCommandTrustsFirstRole | cm-services/src/main/java/com/logaritex/hadoop/configuration/manager/service/impl/ServiceServiceImpl.java:304-315 | the bulk request depends on the first role's service reference only; other roles' services are never looked at |
| ServiceFacade.MixedServicesGoToFirst | cm-services/src/main/java/com/logaritex/hadoop/configuration/manager/service/impl/ServiceServiceImpl.java:304-315 | a list mixing roles of two services is sent, unrefused, to the first role's service |
| ServiceFacade.ServiceServiceImpl.constructor | cm-services/src/main/java/com/logaritex/hadoop/configuration/manager/service/impl/ServiceServiceImpl.java:72-74 | the facade talks to the given collaborator |
| ServiceFacade.ServiceServiceImpl.GetAllServices | cm-services/src/main/java/com/logaritex/hadoop/configuration/manager/service/impl/ServiceServiceImpl.java:80-90 | exactly one request appended to the log, one GET of the cluster's services with `[clusterName]`; the reply's items unchanged and in order, or an empty list when envelope or items are absent |
| ServiceFacade.ServiceServiceImpl.CreateServices | cm-services/src/main/java/com/logaritex/hadoop/configuration/manager/service/impl/ServiceServiceImpl.java:96-106 | exactly one request appended to the log, one POST whose body is an envelope of exactly the given services in order; the same empty-list rule |
| ServiceFacade.ServiceServiceImpl.DeleteService | cm-services/src/main/java/com/logaritex/hadoop/configuration/manager/service/impl/ServiceServiceImpl.java:112-115 | exactly one request appended to the log, one DELETE with a null body and `[clusterName, serviceName]`; the reply as it is |
| ServiceFacade.ServiceServiceImpl.GetService | cm-services/src/main/java/com/logaritex/hadoop/configuration/manager/service/impl/ServiceServiceImpl.java:121-123 | exactly one request appended to the log, one GET with `[clusterName, serviceName]`; the reply as it is |
| ServiceFacade.ServiceServiceImpl.GetServiceConfiguration | cm-services/src/main/java/com/logaritex/hadoop/configuration/manager/service/impl/ServiceServiceImpl.java:129-140 | exactly one request appended to the log, one GET with `[clusterName, serviceName, view name]`; null when envelope or items are absent, else the whole envelope |
| ServiceFacade.ServiceServiceImpl.UpdateServiceConfiguration | cm-services/src/main/java/com/logaritex/hadoop/configuration/manager/service/impl/ServiceServiceImpl.java:146-158 | exactly one request appended to the log, one PUT of the caller's configuration with view `full`; the same null rule |
| ServiceFacade.ServiceServiceImpl.GetActiveServiceCommands | cm-services/src/main/java/com/logaritex/hadoop/configuration/manager/service/impl/ServiceServiceImpl.java:164-174 | exactly one request appended to the log, one GET of the service's commands; the items, or an empty list when envelope or items are absent |
| ServiceFacade.ServiceServiceImpl.ExecuteActionCommand | cm-services/src/main/java/com/logaritex/hadoop/configuration/manager/service/impl/ServiceServiceImpl.java:232-236 | exactly one request appended to the log, one POST with a null body and the command's name as third path variable; the reply as it is |
| ServiceFacade.ServiceServiceImpl.GetRoleTypes | cm-services/src/main/java/com/logaritex/hadoop/configuration/manager/service/impl/ServiceServiceImpl.java:244-254 | exactly one request appended to the log, one GET; null, not an empty list, when envelope or items are absent, else the items |
| ServiceFacade.ServiceServiceImpl.GetRoles | cm-services/src/main/java/com/logaritex/hadoop/configuration/manager/service/impl/ServiceServiceImpl.java:260-270 | exactly one request appended to the log, one GET; null, not an empty list, when envelope or items are absent, else the items |
| ServiceFacade.ServiceServiceImpl.StartService | cm-services/src/main/java/com/logaritex/hadoop/configuration/manager/service/impl/ServiceServiceImpl.java:180-182 | exactly one request appended to the log, the `start` action: a POST with a null body naming `start`; the reply as it is |
| ServiceFacade.ServiceServiceImpl.StopService | cm-services/src/main/java/com/logaritex/hadoop/configuration/manager/service/impl/ServiceServiceImpl.java:188-190 | exactly one request appended to the log, the `stop` action: a POST with a null body naming `stop`; the reply as it is |
| ServiceFacade.ServiceServiceImpl.RestartService | cm-services/src/main/java/com/logaritex/hadoop/configuration/manager/service/impl/ServiceServiceImpl.java:196-198 | exactly one request appended to the log, the `restart` action: a POST with a null body naming `restart`; the reply as it is |
| ServiceFacade.ServiceServiceImpl.ZooKeeperCleanup | cm-services/src/main/java/com/logaritex/hadoop/configuration/manager/service/impl/ServiceServiceImpl.java:212-214 | exactly one request appended to the log, the `zooKeeperCleanup` action: a POST with a null body naming `zooKeeperCleanup`; the reply as it is |
| ServiceFacade.ServiceServiceImpl.ZooKeeperInit | cm-services/src/main/java/com/logaritex/hadoop/configuration/manager/service/impl/ServiceServiceImpl.java:228-230 | exactly one request appended to the log, the `zooKeeperInit` action: a POST with a null body naming `zooKeeperInit`; the reply as it is |
| ServiceFacade.ServiceServiceImpl.RolesCommand | cm-services/src/main/java/com/logaritex/hadoop/configuration/manager/service/impl/ServiceServiceImpl.java:304-315 | no request and a null result for a null or empty list; otherwise exactly one POST of the role names to the first role's service with the command's name; the reply as it is |
| ServiceFacade.ServiceServiceImpl.StartRoles | cm-services/src/main/java/com/logaritex/hadoop/configuration/manager/service/impl/ServiceServiceImpl.java:276-278 | the bulk role command `start`: nothing sent for a null or empty list, else exactly one request |
| ServiceFacade.ServiceServiceImpl.StopRoles | cm-services/src/main/java/com/logaritex/hadoop/configuration/manager/service/impl/ServiceServiceImpl.java:284-286 | the bulk role command `stop`: nothing sent for a null or empty list, else exactly one request |
| ServiceFacade.ServiceServiceImpl.RestartRoles | cm-services/src/main/java/com/logaritex/hadoop/configuration/manager/service/impl/ServiceServiceImpl.java:292-294 | the bulk role command `restart`: nothing sent for a null or empty list, else exactly one request |
| ServiceFacade.ServiceServiceImpl.RefreshRoles | cm-services/src/main/java/com/logaritex/hadoop/configuration/manager/service/impl/ServiceServiceImpl.java:300-302 | the bulk role command `refresh`: nothing sent for a null or empty list, else exactly one request |
| ServiceFacade.ServiceService.constructor | cm-services/src/main/java/com/logaritex/hadoop/configuration/manager/service/ServiceService.java:71-73 | the facade talks to the given collaborator |
| ServiceFacade.ServiceService.GetAllServices | cm-services/src/main/java/com/logaritex/hadoop/configuration/manager/service/ServiceService.java:82-92 | exactly one request appended to the log, one GET of the cluster's services with `[clusterName]`; the reply's items unchanged and in order, or an empty list when envelope or items are absent |
| ServiceFacade.ServiceService.CreateServices | cm-services/src/main/java/com/logaritex/hadoop/configuration/manager/service/ServiceService.java:118-128 | exactly one request appended to the log, one POST whose body is an envelope of exactly the given services in order; the same empty-list rule |
| ServiceFacade.ServiceService.DeleteService | cm-services/src/main/java/com/logaritex/hadoop/configuration/manager/service/ServiceService.java:139-142 | exactly one request appended to the log, one DELETE with a null body and `[clusterName, serviceName]`; the reply as it is |
| ServiceFacade.ServiceService.GetService | cm-services/src/main/java/com/logaritex/hadoop/configuration/manager/service/ServiceService.java:153-155 | exactly one request appended to the log, one GET with `[clusterName, serviceName]`; the reply as it is |
| ServiceFacade.ServiceService.GetServiceConfiguration | cm-services/src/main/java/com/logaritex/hadoop/configuration/manager/service/ServiceService.java:177-188 | exactly one request appended to the log, one GET with `[clusterName, serviceName, view name]`; null when envelope or items are absent, else the whole envelope |
| ServiceFacade.ServiceService.UpdateServiceConfiguration | cm-services/src/main/java/com/logaritex/hadoop/configuration/manager/service/ServiceService.java:209-221 | exactly one request appended to the log, one PUT of the caller's configuration with view `full`; the same null rule |
| ServiceFacade.ServiceService.GetActiveServiceCommands | cm-services/src/main/java/com/logaritex/hadoop/configuration/manager/service/ServiceService.java:232-242 | exactly one request appended to the log, one GET of the service's commands; the items, or an empty list when envelope or items are absent |
| ServiceFacade.ServiceService.ExecuteActionCommand | cm-services/src/main/java/com/logaritex/hadoop/configuration/manager/service/ServiceService.java:312-316 | exactly one request appended to the log, one POST with a null body and the command's name as third path variable; the reply as it is |
| ServiceFacade.ServiceService.GetRoleTypes | cm-services/src/main/java/com/logaritex/hadoop/configuration/manager/service/ServiceService.java:320-330 | exactly one request appended to the log, one GET; null, not an empty list, when envelope or items are absent, else the items |
| ServiceFacade.ServiceService.GetRoles | cm-services/src/main/java/com/logaritex/hadoop/configuration/manager/service/ServiceService.java:332-342 | exactly one request appended to the log, one GET; null, not an empty list, when envelope or items are absent, else the items |
| ServiceFacade.ServiceService.Start | cm-services/src/main/java/com/logaritex/hadoop/configuration/manager/service/ServiceService.java:252-254 | exactly one request appended to the log, the `start` action: a POST with a null body naming `start`; the reply as it is |
| ServiceFacade.ServiceService.Stop | cm-services/src/main/java/com/logaritex/hadoop/configuration/manager/service/ServiceService.java:264-266 | exactly one request appended to the log, the `stop` action: a POST with a null body naming `stop`; the reply as it is |
| ServiceFacade.ServiceService.Restart | cm-services/src/main/java/com/logaritex/hadoop/configuration/manager/service/ServiceService.java:276-278 | exactly one request appended to the log, the `restart` action: a POST with a null body naming `restart`; the reply as it is |
| ServiceFacade.ServiceService.ZooKeeperCleanup | cm-services/src/main/java/com/logaritex/hadoop/configuration/manager/service/ServiceService.java:292-294 | exactly one request appended to the log, the `zooKeeperCleanup` action: a POST with a null body naming `zooKeeperCleanup`; the reply as it is |
| ServiceFacade.ServiceService.ZooKeeperInit | cm-services/src/main/java/com/logaritex/hadoop/configuration/manager/service/ServiceService.java:308-310 | exactly one request appended to the log, the `zooKeeperInit` action: a POST with a null body naming `zooKeeperInit`; the reply as it is |
| ServiceFacade.ServiceService.RolesCommand | cm-services/src/main/java/com/logaritex/hadoop/configuration/manager/service/ServiceService.java:360-371 | no request and a null result for a null or empty list; otherwise exactly one POST of the role names to the first role's service with the command's name; the reply as it is |
| ServiceFacade.ServiceService.StartRoles | cm-services/src/main/java/com/logaritex/hadoop/configuration/manager/service/ServiceService.java:344-346 | the bulk role command `start`: nothing sent for a null or empty list, else exactly one request |
| ServiceFacade.ServiceService.StopRoles | cm-services/src/main/java/com/logaritex/hadoop/configuration/manager/service/ServiceService.java:348-350 | the bulk role command `stop`: nothing sent for a null or empty list, else exactly one request |
| ServiceFacade.ServiceService.RestartRoles | cm-services/src/main/java/com/logaritex/hadoop/configuration/manager/service/ServiceService.java:352-354 | the bulk role command `restart`: nothing sent for a null or empty list, else exactly one request |
| ServiceFacade.ServiceService.RefreshRoles | cm-services/src/main/java/com/logaritex/hadoop/configuration/manager/service/ServiceService.java:356-358 | the bulk role command `refresh`: nothing sent for a null or empty list, else exactly one request |
| HostFacade.HostServiceImpl.constructor | cm-services/src/main/java/com/logaritex/hadoop/configuration/manager/service/HostServiceImpl.java:41-43 | the facade talks to the given collaborator |
| HostFacade.HostServiceImpl.Create | cm-services/src/main/java/com/logaritex/hadoop/configuration/manager/service/HostServiceImpl.java:46-56 | exactly one request appended to the log, one POST of an envelope of exactly the given hosts to `/api/v1/hosts?view=full` with no path variables; items or an empty list |
| HostFacade.HostServiceImpl.Update | cm-services/src/main/java/com/logaritex/hadoop/configuration/manager/service/HostServiceImpl.java:59-61 | exactly one request appended to the log, one PUT whose body is the host and whose only path variable is its id; the reply as it is |
| HostFacade.HostServiceImpl.GetAllHosts | cm-services/src/main/java/com/logaritex/hadoop/configuration/manager/service/HostServiceImpl.java:64-73 | exactly one request appended to the log, one GET of all hosts; items or an empty list |
| HostFacade.HostServiceImpl.GetHost | cm-services/src/main/java/com/logaritex/hadoop/configuration/manager/service/HostServiceImpl.java:76-78 | exactly one request appended to the log, one GET with `[hostId]`; the reply as it is |
| HostFacade.HostServiceImpl.Delete | cm-services/src/main/java/com/logaritex/hadoop/configuration/manager/service/HostServiceImpl.java:81-83 | exactly one request appended to the log, one DELETE with a null body and `[hostId]`; the reply as it is |
| HostFacade.HostServiceImpl.DeleteAllHosts | cm-services/src/main/java/com/logaritex/hadoop/configuration/manager/service/HostServiceImpl.java:86-96 | exactly one request appended to the log, one DELETE with a null body on the hosts collection; items or an empty list |
| HostFacade.HostServiceImpl.GetHostConfig | cm-services/src/main/java/com/logaritex/hadoop/configuration/manager/service/HostServiceImpl.java:103-111 | exactly one request appended to the log, one GET of the host's configuration; null only for an absent envelope, else its items unchecked |
| HostFacade.HostServiceImpl.UpdateHostConfig | cm-services/src/main/java/com/logaritex/hadoop/configuration/manager/service/HostServiceImpl.java:114-123 | exactly one request appended to the log, one PUT of an envelope of exactly the given configs in order; the same envelope-only rule |
| HostFacade.HostServiceImpl.GetHostMetrics | cm-services/src/main/java/com/logaritex/hadoop/configuration/manager/service/HostServiceImpl.java:129-139 | exactly one request appended to the log, one GET of the host's metrics; items or an empty list |
| HostFacade.UpdateAddressesItsBody | cm-services/src/main/java/com/logaritex/hadoop/configuration/manager/service/HostServiceImpl.java:59-61 | an update's only path variable is the id of the host in its body |
| HostFacade.HostRequestsShareResource | cm-services/src/main/java/com/logaritex/hadoop/configuration/manager/service/HostServiceImpl.java:59-83 | read, update and delete of one host id use the same URL template and path variables |
| ClusterFacade.ClusterServiceImpl.constructor | cm-services/src/main/java/com/logaritex/hadoop/configuration/manager/service/impl/ClusterServiceImpl.java:44-46 | the facade talks to the given collaborator |
| ClusterFacade.ClusterServiceImpl.GetAllClusters | cm-services/src/main/java/com/logaritex/hadoop/configuration/manager/service/impl/ClusterServiceImpl.java:49-58 | exactly one request appended to the log, one GET of all clusters; items or an empty list |
| ClusterFacade.ClusterServiceImpl.CreateClusters | cm-services/src/main/java/com/logaritex/hadoop/configuration/manager/service/impl/ClusterServiceImpl.java:61-71 | exactly one request appended to the log, one POST of an envelope of exactly the given clusters with no path variables; items or an empty list |
| ClusterFacade.ClusterServiceImpl.GetCluster | cm-services/src/main/java/com/logaritex/hadoop/configuration/manager/service/impl/ClusterServiceImpl.java:74-76 | exactly one request appended to the log, one GET with `[clusterName]`; the reply as it is |
| ClusterFacade.ClusterServiceImpl.DeleteCluster | cm-services/src/main/java/com/logaritex/hadoop/configuration/manager/service/impl/ClusterServiceImpl.java:79-81 | exactly one request appended to the log, one DELETE with a null body and `[clusterName]`; the reply as it is |
| ClusterFacade.ClusterServiceImpl.GetActiveClusterCommands | cm-services/src/main/java/com/logaritex/hadoop/configuration/manager/service/impl/ClusterServiceImpl.java:84-92 | exactly one request appended to the log, one GET of the cluster's commands; items or an empty list |
| ClusterFacade.ClusterServiceImpl.RestartCluster | cm-services/src/main/java/com/logaritex/hadoop/configuration/manager/service/impl/ClusterServiceImpl.java:95-97 | exactly one request appended to the log, one POST naming `upgradeServices`, as the shared helper sends |
| ClusterFacade.ClusterServiceImpl.StopCluster | cm-services/src/main/java/com/logaritex/hadoop/configuration/manager/service/impl/ClusterServiceImpl.java:100-102 | exactly one request appended to the log, one POST naming `upgradeServices`, as the shared helper sends |
| ClusterFacade.ClusterServiceImpl.StartCluster | cm-services/src/main/java/com/logaritex/hadoop/configuration/manager/service/impl/ClusterServiceImpl.java:105-107 | exactly one request appended to the log, one POST naming `upgradeServices`, as the shared helper sends |
| ClusterFacade.ClusterServiceImpl.UpgradeServices | cm-services/src/main/java/com/logaritex/hadoop/configuration/manager/service/impl/ClusterServiceImpl.java:110-112 | exactly one request appended to the log, one POST naming `upgradeServices` |
| ClusterFacade.ClusterServiceImpl.ExecuteCommand | cm-services/src/main/java/com/logaritex/hadoop/configuration/manager/service/impl/ClusterServiceImpl.java:114-117 | exactly one request appended to the log, one POST with a null body and `[cluster.name, "upgradeServices"]` whatever the action; the reply as it is |
| ClusterFacade.ClusterActionsAllUpgradeServices | cm-services/src/main/java/com/logaritex/hadoop/configuration/manager/service/impl/ClusterServiceImpl.java:114-117 | every action sends the same request, naming `upgradeServices`; start, stop and restart are not named |
| ClusterFacade.CreateClustersAgainstEcho | cm-services/src/test/java/com/logaritex/hadoop/configuration/manager/service/ClusterServiceTest.java:32-37 | against a server that echoes the posted body, `createClusters` returns exactly its argument, so the sizes agree |
| ClusterFacade.CreateClustersEcho | cm-services/src/test/java/com/logaritex/hadoop/configuration/manager/service/ClusterServiceTest.java:32-37 | the posted envelope, read back as a reply of the requested class, unwraps to exactly the given clusters in order |
| UserFacade.UserServiceImpl.constructor | cm-services/src/main/java/com/logaritex/hadoop/configuration/manager/service/impl/UserServiceImpl.java:37-40 | the facade talks to the given collaborator |
| UserFacade.UserServiceImpl.GetAllUsers | cm-services/src/main/java/com/logaritex/hadoop/configuration/manager/service/impl/UserServiceImpl.java:44-53 | exactly one request appended to the log, one GET of all users; items or an empty list |
| UserFacade.UserServiceImpl.Get | cm-services/src/main/java/com/logaritex/hadoop/configuration/manager/service/impl/UserServiceImpl.java:56-58 | exactly one request appended to the log, one GET with `[userName]`; the reply as it is |
| UserFacade.UserServiceImpl.Create | cm-services/src/main/java/com/logaritex/hadoop/configuration/manager/service/impl/UserServiceImpl.java:61-71 | exactly one request appended to the log, one POST of an envelope of exactly the given users in order; items or an empty list |
| UserFacade.UserServiceImpl.Delete | cm-services/src/main/java/com/logaritex/hadoop/configuration/manager/service/impl/UserServiceImpl.java:74-76 | exactly one request appended to the log, one DELETE with a null body and `[userName]`; the reply as it is |
| UserFacade.UserServiceImpl.Update | cm-services/src/main/java/com/logaritex/hadoop/configuration/manager/service/impl/UserServiceImpl.java:80-82 | exactly one request appended to the log, one PUT whose body is the user and whose only path variable is its name; the reply as it is |
| UserFacade.UpdateAddressesItsBody | cm-services/src/main/java/com/logaritex/hadoop/configuration/manager/service/impl/UserServiceImpl.java:80-82 | the name in an update's path is always the name in its body |
| UserFacade.UserRequestsShareResource | cm-services/src/main/java/com/logaritex/hadoop/configuration/manager/service/impl/UserServiceImpl.java:56-82 | read, update and delete of one name use the same URL template and path variables |
| Managers.ClouderaManagerImpl.constructor | cm-services/src/main/java/com/logaritex/hadoop/configuration/manager/service/impl/ClouderaManagerImpl.java:39-41 | the collaborator is fixed and all four facade fields start null |
| Managers.ClouderaManagerImpl.GetClusterService | cm-services/src/main/java/com/logaritex/hadoop/configuration/manager/service/impl/ClouderaManagerImpl.java:44-50 | afterwards the field holds the returned facade, wired to the fixed collaborator; a second call returns the same facade and changes nothing; a first call builds a fresh one; the other three fields are unchanged |
| Managers.ClouderaManagerImpl.GetHostService | cm-services/src/main/java/com/logaritex/hadoop/configuration/manager/service/impl/ClouderaManagerImpl.java:53-59 | afterwards the field holds the returned facade, wired to the fixed collaborator; a second call returns the same facade and changes nothing; a first call builds a fresh one; the other three fields are unchanged |
| Managers.ClouderaManagerImpl.GetUserService | cm-services/src/main/java/com/logaritex/hadoop/configuration/manager/service/impl/ClouderaManagerImpl.java:62-67 | afterwards the field holds the returned facade, wired to the fixed collaborator; a second call returns the same facade and changes nothing; a first call builds a fresh one; the other three fields are unchanged |
| Managers.ClouderaManagerImpl.GetServiceService | cm-services/src/main/java/com/logaritex/hadoop/configuration/manager/service/impl/ClouderaManagerImpl.java:70-75 | afterwards the field holds the returned facade, wired to the fixed collaborator; a second call returns the same facade and changes nothing; a first call builds a fresh one; the other three fields are unchanged |
| Managers.ConfigurationManager.constructor | cm-services/src/main/java/com/logaritex/hadoop/configuration/manager/service/ConfigurationManager.java:38-40 | the collaborator is fixed and all four facade fields start null |
| Managers.ConfigurationManager.GetClusterService | cm-services/src/main/java/com/logaritex/hadoop/configuration/manager/service/ConfigurationManager.java:42-48 | afterwards the field holds the returned facade, wired to the fixed collaborator; a second call returns the same facade and changes nothing; a first call builds a fresh one; the other three fields are unchanged |
| Managers.ConfigurationManager.GetHostService | cm-services/src/main/java/com/logaritex/hadoop/configuration/manager/service/ConfigurationManager.java:50-56 | afterwards the field holds the returned facade, wired to the fixed collaborator; a second call returns the same facade and changes nothing; a first call builds a fresh one; the other three fields are unchanged |
| Managers.ConfigurationManager.GetUserService | cm-services/src/main/java/com/logaritex/hadoop/configuration/manager/service/ConfigurationManager.java:58-63 | afterwards the field holds the returned facade, wired to the fixed collaborator; a second call returns the same facade and changes nothing; a first call builds a fresh one; the other three fields are unchanged |
| Managers.ConfigurationManager.GetServiceService | cm-services/src/main/java/com/logaritex/hadoop/configuration/manager/service/ConfigurationManager.java:65-70 | afterwards the field holds the returned facade, wired to the fixed collaborator; a second call returns the same facade and changes nothing; a first call builds a fresh one; the other three fields are unchanged |
| SimpleHttp.Utf8RoundTrip | cm-java-client/src/main/java/com/logaritex/hadoop/configuration/manager/SimpleHttpService.java:109 | the UTF-8 bytes of a string decode back to the string |
| SimpleHttp.BasicAuthHeaderValue | cm-java-client/src/main/java/com/logaritex/hadoop/configuration/manager/SimpleHttpService.java:107-111 | the value is `Basic ` followed by base64 text that decodes to the UTF-8 bytes of `user:password`, nulls printed as `null` |
| SimpleHttp.BasicAuthRoundTrip | cm-java-client/src/main/java/com/logaritex/hadoop/configuration/manager/SimpleHttpService.java:107-111 | a server parsing the value by the Basic scheme recovers user-id and password exactly, when the user-id has no colon |
| SimpleHttp.SplitAtColonJoin | cm-java-client/src/main/java/com/logaritex/hadoop/configuration/manager/SimpleHttpService.java:109 | splitting `user:password` at the first colon gives back both parts when the user has no colon |
| SimpleHttp.SetHeader | cm-java-client/src/main/java/com/logaritex/hadoop/configuration/manager/SimpleHttpService.java:100-101 | after `set`, the header has exactly the one value, every other header is unchanged, and the name set gains just that name |
| SimpleHttp.CreateHttpHeaders | cm-java-client/src/main/java/com/logaritex/hadoop/configuration/manager/SimpleHttpService.java:97-105 | exactly three headers: `Accept-Encoding: gzip`, the Basic `Authorization` value, `Accept: application/json` |
| SimpleHttp.HostBaseUrlIgnoresPort | cm-java-client/src/main/java/com/logaritex/hadoop/configuration/manager/SimpleHttpService.java:43-45 | the host/port constructor's base URL is the host name (printed `null` when absent) followed by `:si`, whatever the port |
| SimpleHttp.SimpleHttpService.constructor | cm-java-client/src/main/java/com/logaritex/hadoop/configuration/manager/SimpleHttpService.java:47-59 | the base URL is kept, the default headers are computed from the credentials, read and connect timeouts are 5000 ms |
| SimpleHttp.SimpleHttpService.WithHost | cm-java-client/src/main/java/com/logaritex/hadoop/configuration/manager/SimpleHttpService.java:43-45 | the same construction with the base URL `hostName:si` |
| SimpleHttp.SimpleHttpService.ExchangeFor | cm-java-client/src/main/java/com/logaritex/hadoop/configuration/manager/SimpleHttpService.java:61-95 | every verb targets the base URL followed by the template, with the default headers, and passes verb, body and path variables through unchanged and in order |
| SimpleHttp.ExchangeThroughNewService | cm-java-client/src/main/java/com/logaritex/hadoop/configuration/manager/SimpleHttpService.java:47-95 | every request sent through a service built from a base URL and credentials carries exactly the three default headers with the Basic value and targets the base URL followed by the template |

## Left out

- The HTTP exchange itself is not modelled: Spring's `RestTemplate`, request factories, gzip handling and JSON mapping. It is network I/O through a library. Its replies are the server oracle's replies, and the timeouts are modelled only as the values configured.
- `AndroidHttpService` is not modelled. Its headers come from a library class, and its only own logic is a base-URL format string.
- Http.HttpService.Get: a failed exchange is not modelled. In the client the exchange throws on a non-2xx status, an I/O error, a timeout or an unreadable body, and no facade catches it. The exception reaches the caller after the request has been sent. Here the server always answers, with null or an object of the requested class.
- Http.HttpService.Post: the same; a failed exchange is not modelled.
- Http.HttpService.Delete: the same; a failed exchange is not modelled.
- Http.HttpService.Put: the same; a failed exchange is not modelled.
- Null object arguments, and the `NullPointerException` the client would throw for them, are not modelled. These arguments are plain values in the model:
  - `host` in `HostFacade.HostServiceImpl.Update`;
  - `user` in `UserFacade.UserServiceImpl.Update`;
  - `cluster` in `ClusterFacade.ClusterServiceImpl.ExecuteCommand` and the cluster actions;
  - `service` and `view` in the `ServiceFacade` methods that take them.
- URL-template substitution is not modelled. It happens inside Spring, and the client never checks that the path variables match the placeholders. Requests keep the template and the variables separately.
- Jackson annotations and serialisation are not modelled. Envelope classes (`ServiceList`, `HostList`, …) are one generic `Envelope` with a nullable `items` list.
- `RoleNames.fromRoles` is taken to collect the roles' names in order. `RoleNames.java` is not part of this model.
- `toString` methods are not modelled; they format debug text with no contract.
- Setters and getter/setter bags (`Activity`, `Service`, `Role`, `Host`, `Config`, `Command`, the argument classes, `VersionInfo`) are not modelled as classes. The facades only read a few of their fields, and only those fields are kept, as immutable values.
- Null elements inside argument lists and Java varargs arrays passed as null are not modelled. List arguments are sequences.
- Interfaces with no bodies are not modelled: `HostService`, `ClusterService`, `UserService`, `ClouderaManager`.
- The unsynchronised lazy getters are not modelled under concurrency. Calls are taken to happen one at a time.
- Header names are compared exactly; `HttpHeaders` compares them case-insensitively. The model sets only three distinct names, so this makes no difference there.
- Lone surrogates: Dafny's `char` is a Unicode scalar value, so a Java string holding a lone surrogate is not modelled. Default charsets other than UTF-8 are not modelled either.
- `UserServiceTest` and `Sample1` are not modelled; they drive a live server.
