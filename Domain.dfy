/**
  The domain objects of the Cloudera Manager REST API (package
  `com.logaritex.hadoop.configuration.manager.domain`).

  Four classes have a key-based identity: `User`, `Event` with its nested
  `EventAttribute`, `Metric` and `Nameservice`. Their `equals` compares only
  key fields, with explicit null handling, and their `hashCode` folds the same
  fields with the prime 31 from a seed of 1. The other classes are getter and
  setter bags; they appear here only with the fields the resource facades read.
 */
module Domain {
  import opened JavaLang

  // ---------------------------------------------------------------------------
  // Entities with a key-based identity

  /** A Cloudera Manager user; the name is unique within an installation. */
  datatype User = User(name: JString, password: JString, roles: Nullable<seq<string>>)

  datatype EventCategory = UNKNOWN_CATEGORY | HEALTH_EVENT | LOG_EVENT | AUDIT_EVENT | ACTIVITY_EVENT
  datatype EventSeverity = UNKNOWN_SEVERITY | INFORMATIONAL | IMPORTANT | CRITICAL

  /** A free-form key/values pair attached to an event. */
  datatype EventAttribute = EventAttribute(name: JString, values: Nullable<seq<JString>>)

  /** A noteworthy incident in Cloudera Manager or the managed cluster. */
  datatype Event = Event(
    id: JString,
    content: JString,
    timeOccurred: JString,
    timeReceived: JString,
    category: Nullable<EventCategory>,
    severity: Nullable<EventSeverity>,
    alert: bool,
    attributes: Nullable<seq<EventAttribute>>)

  /** One reading of a metric; its fields are not interpreted here. */
  datatype MetricData = MetricData(timestamp: JString, value: JString)

  /** A metric monitored by the Cloudera Management Services. */
  datatype Metric = Metric(
    name: JString,
    context: JString,
    unit: JString,
    data: Nullable<seq<MetricData>>,
    displayName: JString,
    description: JString)

  /** A reference to a role, as a nameservice holds it. */
  datatype RoleRef = RoleRef(clusterName: JString, serviceName: JString, roleName: JString)

  /** An HDFS nameservice. Health summary and health checks are kept as text. */
  datatype Nameservice = Nameservice(
    name: JString,
    active: Nullable<RoleRef>,
    activeFailoverController: Nullable<RoleRef>,
    standBy: Nullable<RoleRef>,
    standByFailoverController: Nullable<RoleRef>,
    secondary: Nullable<RoleRef>,
    mountPoints: Nullable<seq<JString>>,
    healthSummary: JString,
    healthChecks: Nullable<seq<JString>>)

  /**
    The argument of `equals(Object)`: an object of one of the classes above,
    or of any other class. Reference identity (`this == obj`) is modelled by
    equality of the whole value; an object is always identical to itself.
   */
  datatype Obj =
    | UserObj(user: User)
    | EventObj(event: Event)
    | EventAttributeObj(attribute: EventAttribute)
    | MetricObj(metric: Metric)
    | NameserviceObj(nameservice: Nameservice)
    | OtherObj(className: string)

  /** One key-field step of a generated `equals`: a null field equals only a null
      field, a non-null one is compared with `String.equals`. */
  function FieldEquals(mine: JString, theirs: JString): (r: bool)
    ensures r <==> mine == theirs
  {
    if mine.Null? then theirs.Null?
    else theirs.Ref? && mine.value == theirs.value
  }

  /** `User(String name, String password, List<String> roles)`. */
  function NewUser(name: JString, password: JString, roles: Nullable<seq<string>>): (u: User)
    ensures u.name == name && u.password == password && u.roles == roles
    ensures forall p, rs :: UserEquals(u, Ref(UserObj(User(name, p, rs))))
  {
    User(name, password, roles)
  }

  /** `User.equals`: users are equal exactly when their names are. */
  function UserEquals(self: User, obj: Nullable<Obj>): (r: bool)
    ensures r <==> obj.Ref? && obj.value.UserObj? && obj.value.user.name == self.name
  {
    if obj == Ref(UserObj(self)) then true
    else if obj.Null? then false
    else if !obj.value.UserObj? then false
    else FieldEquals(self.name, obj.value.user.name)
  }

  /** `User.hashCode`. */
  function UserHashCode(self: User): (r: Int32)
    ensures (r - (31 + NullSafeHash(self.name))) % TWO_32 == 0
    ensures self.name.Null? ==> r == 31
  {
    Wrap(31 * 1 + NullSafeHash(self.name))
  }

  /** `Event.equals`: events are equal exactly when their ids are. */
  function EventEquals(self: Event, obj: Nullable<Obj>): (r: bool)
    ensures r <==> obj.Ref? && obj.value.EventObj? && obj.value.event.id == self.id
  {
    if obj == Ref(EventObj(self)) then true
    else if obj.Null? then false
    else if !obj.value.EventObj? then false
    else FieldEquals(self.id, obj.value.event.id)
  }

  /** `Event.hashCode`. */
  function EventHashCode(self: Event): (r: Int32)
    ensures (r - (31 + NullSafeHash(self.id))) % TWO_32 == 0
    ensures self.id.Null? ==> r == 31
  {
    Wrap(31 * 1 + NullSafeHash(self.id))
  }

  /** `EventAttribute.equals`: attributes are equal exactly when their names are. */
  function EventAttributeEquals(self: EventAttribute, obj: Nullable<Obj>): (r: bool)
    ensures r <==> obj.Ref? && obj.value.EventAttributeObj? && obj.value.attribute.name == self.name
  {
    if obj == Ref(EventAttributeObj(self)) then true
    else if obj.Null? then false
    else if !obj.value.EventAttributeObj? then false
    else FieldEquals(self.name, obj.value.attribute.name)
  }

  /** `EventAttribute.hashCode`. */
  function EventAttributeHashCode(self: EventAttribute): (r: Int32)
    ensures (r - (31 + NullSafeHash(self.name))) % TWO_32 == 0
    ensures self.name.Null? ==> r == 31
  {
    Wrap(31 * 1 + NullSafeHash(self.name))
  }

  /** `Metric.equals`: metrics are equal exactly when context, name and unit all are. */
  function MetricEquals(self: Metric, obj: Nullable<Obj>): (r: bool)
    ensures r <==> (obj.Ref? && obj.value.MetricObj?
                    && obj.value.metric.context == self.context
                    && obj.value.metric.name == self.name
                    && obj.value.metric.unit == self.unit)
  {
    if obj == Ref(MetricObj(self)) then true
    else if obj.Null? then false
    else if !obj.value.MetricObj? then false
    else
      var other := obj.value.metric;
      if !FieldEquals(self.context, other.context) then false
      else if !FieldEquals(self.name, other.name) then false
      else FieldEquals(self.unit, other.unit)
  }

  /** Three `h = 31 * h + c` steps from a seed of 1, wrapped after each step,
      equal the closed form 31^3 + 31^2 * a + 31 * b + c wrapped once. */
  lemma WrapFoldThree(a: int, b: int, c: int)
    ensures Wrap(31 * Wrap(31 * Wrap(31 + a) + b) + c) == Wrap(29791 + 961 * a + 31 * b + c)
  {
    WrapMulAdd(31, 31 + a, b);
    var r2: int := Wrap(31 * Wrap(31 + a) + b);
    assert r2 == Wrap(961 + 31 * a + b);
    WrapMulAdd(31, 961 + 31 * a + b, c);
  }

  /** `Metric.hashCode`: context, then name, then unit, each step in `int`
      arithmetic; the same `int` as the closed form
      31^3 + 31^2 * hash(context) + 31 * hash(name) + hash(unit) wrapped once. */
  function MetricHashCode(self: Metric): (r: Int32)
    ensures r == Wrap(29791 + 961 * NullSafeHash(self.context) + 31 * NullSafeHash(self.name) + NullSafeHash(self.unit))
    ensures self.context.Null? && self.name.Null? && self.unit.Null? ==> r == 29791
  {
    var r0: int := 1;
    var r1 := Wrap(31 * r0 + NullSafeHash(self.context));
    var r2 := Wrap(31 * r1 + NullSafeHash(self.name));
    WrapFoldThree(NullSafeHash(self.context), NullSafeHash(self.name), NullSafeHash(self.unit));
    Wrap(31 * r2 + NullSafeHash(self.unit))
  }

  /** `Nameservice.equals`: nameservices are equal exactly when their names are. */
  function NameserviceEquals(self: Nameservice, obj: Nullable<Obj>): (r: bool)
    ensures r <==> obj.Ref? && obj.value.NameserviceObj? && obj.value.nameservice.name == self.name
  {
    if obj == Ref(NameserviceObj(self)) then true
    else if obj.Null? then false
    else if !obj.value.NameserviceObj? then false
    else FieldEquals(self.name, obj.value.nameservice.name)
  }

  /** `Nameservice.hashCode`. */
  function NameserviceHashCode(self: Nameservice): (r: Int32)
    ensures (r - (31 + NullSafeHash(self.name))) % TWO_32 == 0
    ensures self.name.Null? ==> r == 31
  {
    Wrap(31 * 1 + NullSafeHash(self.name))
  }

  // ---------------------------------------------------------------------------
  // The `equals` contract of java.lang.Object, and hash consistency

  /** `User.equals` is an equivalence on users, false on null and on other classes. */
  lemma UserEqualsIsEquivalence(a: User, b: User, c: User, other: Obj)
    requires !other.UserObj?
    ensures UserEquals(a, Ref(UserObj(a)))
    ensures UserEquals(a, Ref(UserObj(b))) == UserEquals(b, Ref(UserObj(a)))
    ensures UserEquals(a, Ref(UserObj(b))) && UserEquals(b, Ref(UserObj(c))) ==> UserEquals(a, Ref(UserObj(c)))
    ensures !UserEquals(a, Null) && !UserEquals(a, Ref(other))
  {
  }

  /** Equal users have equal hash codes; the hash ignores password and roles. */
  lemma UserHashCodeConsistent(a: User, b: User)
    ensures UserEquals(a, Ref(UserObj(b))) ==> UserHashCode(a) == UserHashCode(b)
    ensures a.name == b.name ==> UserHashCode(a) == UserHashCode(b)
  {
  }

  /** `Event.equals` is an equivalence on events, false on null and on other classes. */
  lemma EventEqualsIsEquivalence(a: Event, b: Event, c: Event, other: Obj)
    requires !other.EventObj?
    ensures EventEquals(a, Ref(EventObj(a)))
    ensures EventEquals(a, Ref(EventObj(b))) == EventEquals(b, Ref(EventObj(a)))
    ensures EventEquals(a, Ref(EventObj(b))) && EventEquals(b, Ref(EventObj(c))) ==> EventEquals(a, Ref(EventObj(c)))
    ensures !EventEquals(a, Null) && !EventEquals(a, Ref(other))
  {
  }

  /** Equal events have equal hash codes; only the id is hashed. */
  lemma EventHashCodeConsistent(a: Event, b: Event)
    ensures EventEquals(a, Ref(EventObj(b))) ==> EventHashCode(a) == EventHashCode(b)
    ensures a.id == b.id ==> EventHashCode(a) == EventHashCode(b)
  {
  }

  /** `EventAttribute.equals` is an equivalence, false on null and on other classes. */
  lemma EventAttributeEqualsIsEquivalence(a: EventAttribute, b: EventAttribute, c: EventAttribute, other: Obj)
    requires !other.EventAttributeObj?
    ensures EventAttributeEquals(a, Ref(EventAttributeObj(a)))
    ensures EventAttributeEquals(a, Ref(EventAttributeObj(b))) == EventAttributeEquals(b, Ref(EventAttributeObj(a)))
    ensures EventAttributeEquals(a, Ref(EventAttributeObj(b))) && EventAttributeEquals(b, Ref(EventAttributeObj(c)))
      ==> EventAttributeEquals(a, Ref(EventAttributeObj(c)))
    ensures !EventAttributeEquals(a, Null) && !EventAttributeEquals(a, Ref(other))
  {
  }

  /** Equal attributes have equal hash codes; the values are not hashed. */
  lemma EventAttributeHashCodeConsistent(a: EventAttribute, b: EventAttribute)
    ensures EventAttributeEquals(a, Ref(EventAttributeObj(b))) ==> EventAttributeHashCode(a) == EventAttributeHashCode(b)
    ensures a.name == b.name ==> EventAttributeHashCode(a) == EventAttributeHashCode(b)
  {
  }

  /** `Metric.equals` is an equivalence, false on null and on other classes. */
  lemma MetricEqualsIsEquivalence(a: Metric, b: Metric, c: Metric, other: Obj)
    requires !other.MetricObj?
    ensures MetricEquals(a, Ref(MetricObj(a)))
    ensures MetricEquals(a, Ref(MetricObj(b))) == MetricEquals(b, Ref(MetricObj(a)))
    ensures MetricEquals(a, Ref(MetricObj(b))) && MetricEquals(b, Ref(MetricObj(c))) ==> MetricEquals(a, Ref(MetricObj(c)))
    ensures !MetricEquals(a, Null) && !MetricEquals(a, Ref(other))
  {
  }

  /** Equal metrics have equal hash codes; data, display name and description are not hashed. */
  lemma MetricHashCodeConsistent(a: Metric, b: Metric)
    ensures MetricEquals(a, Ref(MetricObj(b))) ==> MetricHashCode(a) == MetricHashCode(b)
    ensures a.context == b.context && a.name == b.name && a.unit == b.unit
        ==> MetricHashCode(a) == MetricHashCode(b)
  {
  }

  /** `Nameservice.equals` is an equivalence, false on null and on other classes. */
  lemma NameserviceEqualsIsEquivalence(a: Nameservice, b: Nameservice, c: Nameservice, other: Obj)
    requires !other.NameserviceObj?
    ensures NameserviceEquals(a, Ref(NameserviceObj(a)))
    ensures NameserviceEquals(a, Ref(NameserviceObj(b))) == NameserviceEquals(b, Ref(NameserviceObj(a)))
    ensures NameserviceEquals(a, Ref(NameserviceObj(b))) && NameserviceEquals(b, Ref(NameserviceObj(c)))
      ==> NameserviceEquals(a, Ref(NameserviceObj(c)))
    ensures !NameserviceEquals(a, Null) && !NameserviceEquals(a, Ref(other))
  {
  }

  /** Equal nameservices have equal hash codes; only the name is hashed. */
  lemma NameserviceHashCodeConsistent(a: Nameservice, b: Nameservice)
    ensures NameserviceEquals(a, Ref(NameserviceObj(b))) ==> NameserviceHashCode(a) == NameserviceHashCode(b)
    ensures a.name == b.name ==> NameserviceHashCode(a) == NameserviceHashCode(b)
  {
  }

  // ---------------------------------------------------------------------------
  // Entities the resource facades read or pass through

  /** The cluster a service belongs to. */
  datatype ClusterRef = ClusterRef(clusterName: JString)

  /** The service a role belongs to. */
  datatype ServiceRef = ServiceRef(clusterName: JString, serviceName: JString)

  datatype Cluster = Cluster(name: JString, version: JString)

  datatype Service = Service(name: JString, clusterRef: Nullable<ClusterRef>)

  datatype Role = Role(name: JString, serviceRef: Nullable<ServiceRef>)

  datatype Host = Host(hostId: JString, hostname: JString)

  datatype Config = Config(name: JString, value: JString)

  datatype Command = Command(id: JString, name: JString)

  /** The body of a bulk role command: the names of the roles, in order. */
  datatype RoleNames = RoleNames(items: seq<JString>)

  /** `RoleNames.fromRoles`: the names of the given roles, in order. */
  function RoleNamesFromRoles(roles: seq<Role>): (r: RoleNames)
    ensures |r.items| == |roles|
    ensures forall i | 0 <= i < |roles| :: r.items[i] == roles[i].name
  {
    RoleNames(seq(|roles|, i requires 0 <= i < |roles| => roles[i].name))
  }
}
