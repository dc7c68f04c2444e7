/**
 * The `WorkTimeAdapter` of main.js (and its twin `WorkTimeAdapterForTest` of
 * test_full.js): its configuration, the open session of each device, the log
 * it appends to, and the object tree it keeps the customer and employee
 * channels in. Each method is proved to do what the functions of `Sessions`
 * and `ObjectTree` say.
 */
module Adapter {
  import opened Wrappers
  import opened Text
  import opened Calendar
  import opened Records
  import opened Geofence
  import opened Sessions
  import opened ObjectTree

  // ---------------------------------------------------------------------------
  // Channels and their sections
  // ---------------------------------------------------------------------------

  /** `${namespace}.kunden.` */
  function CustomerPrefix(namespace: string): string
  {
    namespace + ".kunden."
  }

  /** `${namespace}.mitarbeiter.` */
  function EmployeePrefix(namespace: string): string
  {
    namespace + ".mitarbeiter."
  }

  /** The customer and employee sections differ right after the namespace and its dot. */
  lemma SectionsApart(namespace: string)
    ensures Apart(CustomerPrefix(namespace), EmployeePrefix(namespace), |namespace| + 1)
  {
    assert CustomerPrefix(namespace)[|namespace| + 1] == 'k';
    assert EmployeePrefix(namespace)[|namespace| + 1] == 'm';
  }

  /** The channel written for a customer: its name as `common.name`, the record as `native`. */
  function CustomerChannel(c: Customer): TreeObject
  {
    Channel(c.name, CustomerNative(c))
  }

  /** The channel written for an employee: `${firstName} ${lastName}` as `common.name`, the record as `native`. */
  function EmployeeChannel(e: Employee): TreeObject
  {
    Channel(FullName(e), EmployeeNative(e))
  }

  function CustomerChannels(customers: map<string, Customer>): (m: map<string, TreeObject>)
    ensures m.Keys == customers.Keys
  {
    map k | k in customers :: CustomerChannel(customers[k])
  }

  function EmployeeChannels(employees: map<string, Employee>): (m: map<string, TreeObject>)
    ensures m.Keys == employees.Keys
  {
    map k | k in employees :: EmployeeChannel(employees[k])
  }

  /** The channel objects the configuration asks for: `<ns>.kunden.<key>` and `<ns>.mitarbeiter.<key>`. */
  function CustomerObjects(namespace: string, customers: map<string, Customer>): map<string, TreeObject>
  {
    Placed(CustomerPrefix(namespace), CustomerChannels(customers))
  }

  function EmployeeObjects(namespace: string, employees: map<string, Employee>): map<string, TreeObject>
  {
    Placed(EmployeePrefix(namespace), EmployeeChannels(employees))
  }

  /** The tree after `updateCustomerObjects` and then `updateEmployeeObjects`. */
  function TreeAfterUpdate(objects: map<string, TreeObject>, namespace: string,
                           customers: map<string, Customer>, employees: map<string, Employee>): map<string, TreeObject>
  {
    Reconciled(Reconciled(objects, CustomerPrefix(namespace), CustomerObjects(namespace, customers)),
               EmployeePrefix(namespace), EmployeeObjects(namespace, employees))
  }

  /** Running both updates a second time without a configuration change gives the same tree. */
  lemma UpdateIdempotent(objects: map<string, TreeObject>, namespace: string,
                         customers: map<string, Customer>, employees: map<string, Employee>)
    ensures var once := TreeAfterUpdate(objects, namespace, customers, employees);
      TreeAfterUpdate(once, namespace, customers, employees) == once
  {
    SectionsApart(namespace);
    PlacedAt(CustomerPrefix(namespace), CustomerChannels(customers));
    PlacedAt(EmployeePrefix(namespace), EmployeeChannels(employees));
    ReconcileBothIdempotent(objects, CustomerPrefix(namespace), CustomerObjects(namespace, customers),
                            EmployeePrefix(namespace), EmployeeObjects(namespace, employees), |namespace| + 1);
  }

  /** Every configured key sorts no higher than `'香'`, so its channel is inside the view of its section. */
  predicate KeysInSection(keys: set<string>)
  {
    forall k :: k in keys ==> LexLe(k, [SectionEnd])
  }

  lemma PlacedInSection(prefix: string, channels: map<string, TreeObject>)
    requires KeysInSection(channels.Keys)
    ensures forall id :: id in Placed(prefix, channels) ==> InView(id, prefix, prefix + [SectionEnd])
  {
    PlacedAt(prefix, channels);
    forall id | id in Placed(prefix, channels) ensures InView(id, prefix, prefix + [SectionEnd])
    {
      KeyInSection(prefix, id[|prefix|..]);
    }
  }

  /** After both updates the customer section is still as the first update left it. */
  lemma UpdateSettled(objects: map<string, TreeObject>, namespace: string,
                      customers: map<string, Customer>, employees: map<string, Employee>)
    ensures var r := TreeAfterUpdate(objects, namespace, customers, employees);
      && Settled(r, CustomerPrefix(namespace), CustomerObjects(namespace, customers))
      && Settled(r, EmployeePrefix(namespace), EmployeeObjects(namespace, employees))
  {
    var cp, ep := CustomerPrefix(namespace), EmployeePrefix(namespace);
    var dc, de := CustomerObjects(namespace, customers), EmployeeObjects(namespace, employees);
    var r1 := Reconciled(objects, cp, dc);
    SectionsApart(namespace);
    PlacedAt(cp, CustomerChannels(customers));
    PlacedAt(ep, EmployeeChannels(employees));
    ReconciledSection(objects, cp, dc);
    ReconciledSection(r1, ep, de);
    ReconcileKeepsOtherSettled(r1, cp, dc, ep, de, |namespace| + 1);
  }

  /**
   * After both updates, every configured customer key `k` has the channel
   * `<ns>.kunden.<k>` and every configured employee key the channel
   * `<ns>.mitarbeiter.<k>`.
   */
  lemma UpdateWritesChannels(objects: map<string, TreeObject>, namespace: string,
                             customers: map<string, Customer>, employees: map<string, Employee>)
    ensures var r, cp, ep := TreeAfterUpdate(objects, namespace, customers, employees), CustomerPrefix(namespace), EmployeePrefix(namespace);
      && (forall k :: k in customers ==> cp + k in r && r[cp + k] == CustomerChannel(customers[k]))
      && (forall k :: k in employees ==> ep + k in r && r[ep + k] == EmployeeChannel(employees[k]))
  {
    UpdateSettled(objects, namespace, customers, employees);
    PlacedAt(CustomerPrefix(namespace), CustomerChannels(customers));
    PlacedAt(EmployeePrefix(namespace), EmployeeChannels(employees));
  }

  /**
   * When the configured keys sort no higher than `'香'`, each section view
   * after both updates lists exactly the configured ids: every stale channel
   * of the section is gone.
   */
  lemma UpdateSectionsExact(objects: map<string, TreeObject>, namespace: string,
                            customers: map<string, Customer>, employees: map<string, Employee>)
    ensures var r := TreeAfterUpdate(objects, namespace, customers, employees);
      && (KeysInSection(customers.Keys) ==> SectionIds(r, CustomerPrefix(namespace)) == CustomerObjects(namespace, customers).Keys)
      && (KeysInSection(employees.Keys) ==> SectionIds(r, EmployeePrefix(namespace)) == EmployeeObjects(namespace, employees).Keys)
  {
    var cp, ep := CustomerPrefix(namespace), EmployeePrefix(namespace);
    UpdateSettled(objects, namespace, customers, employees);
    if KeysInSection(customers.Keys) {
      PlacedInSection(cp, CustomerChannels(customers));
    }
    if KeysInSection(employees.Keys) {
      PlacedInSection(ep, EmployeeChannels(employees));
    }
  }

  /** Ids outside both sections keep their object, or their absence, through both updates. */
  lemma UpdateKeepsOthers(objects: map<string, TreeObject>, namespace: string,
                          customers: map<string, Customer>, employees: map<string, Employee>, id: string)
    requires !StartsWith(id, CustomerPrefix(namespace)) && !StartsWith(id, EmployeePrefix(namespace))
    ensures var r := TreeAfterUpdate(objects, namespace, customers, employees);
      (id in r <==> id in objects) && (id in objects ==> r[id] == objects[id])
  {
    var cp, ep := CustomerPrefix(namespace), EmployeePrefix(namespace);
    var dc, de := CustomerObjects(namespace, customers), EmployeeObjects(namespace, employees);
    PlacedAt(cp, CustomerChannels(customers));
    PlacedAt(ep, EmployeeChannels(employees));
    InSectionStartsWith(id, cp);
    InSectionStartsWith(id, ep);
    ReconciledOutside(objects, cp, dc, id);
    ReconciledOutside(Reconciled(objects, cp, dc), ep, de, id);
  }

  /** Every id of `objects` lies in the view of the customer section or of the employee section. */
  predicate InSections(objects: map<string, TreeObject>, namespace: string)
  {
    forall id :: id in objects ==>
      InView(id, CustomerPrefix(namespace), CustomerPrefix(namespace) + [SectionEnd])
      || InView(id, EmployeePrefix(namespace), EmployeePrefix(namespace) + [SectionEnd])
  }

  /**
   * A tree that holds nothing but channels of the two sections holds, after
   * both updates, exactly the configured channels, provided the configured
   * keys sort no higher than `'香'`; so it again holds nothing else.
   */
  lemma UpdateKeysExact(objects: map<string, TreeObject>, namespace: string,
                        customers: map<string, Customer>, employees: map<string, Employee>)
    requires KeysInSection(customers.Keys) && KeysInSection(employees.Keys)
    requires InSections(objects, namespace)
    ensures var r := TreeAfterUpdate(objects, namespace, customers, employees);
      r.Keys == CustomerObjects(namespace, customers).Keys + EmployeeObjects(namespace, employees).Keys
    ensures InSections(TreeAfterUpdate(objects, namespace, customers, employees), namespace)
  {
    var cp, ep := CustomerPrefix(namespace), EmployeePrefix(namespace);
    var dc, de := CustomerObjects(namespace, customers), EmployeeObjects(namespace, employees);
    var r1 := Reconciled(objects, cp, dc);
    var r := Reconciled(r1, ep, de);
    ReconciledKeys(objects, cp, dc);
    ReconciledKeys(r1, ep, de);
    UpdateSettled(objects, namespace, customers, employees);
    UpdateSectionsExact(objects, namespace, customers, employees);
    PlacedInSection(cp, CustomerChannels(customers));
    PlacedInSection(ep, EmployeeChannels(employees));
    forall id | id in r
      ensures id in dc || id in de
    {
      if InView(id, cp, cp + [SectionEnd]) {
        assert id in SectionIds(r, cp);
      } else if InView(id, ep, ep + [SectionEnd]) {
        assert id in SectionIds(r, ep);
      }
    }
  }

  // ---------------------------------------------------------------------------
  // Configuration and messages
  // ---------------------------------------------------------------------------

  /** The customers `onReady` installs when none are configured. */
  function DefaultCustomers(): map<string, Customer>
  {
    map[
      "Home-Herrengasse" := Customer("Home-Herrengasse", "Herrengasse 1, Musterstadt", 50.0, "Installation"),
      "Office-Mitte" := Customer("Office-Mitte", "Musterstraße 2, Musterstadt", 75.0, "Consulting")
    ]
  }

  /** The employees `onReady` installs when none are configured. */
  function DefaultEmployees(): map<string, Employee>
  {
    map[
      "traccar.0.devices.1" := Employee("Max", "Mustermann"),
      "traccar.0.devices.2" := Employee("Erika", "Musterfrau")
    ]
  }

  /** `configured` unless it is empty, `fallback` then. */
  function WithDefault<V>(configured: map<string, V>, fallback: map<string, V>): (r: map<string, V>)
    ensures configured != map[] ==> r == configured
    ensures configured == map[] ==> r == fallback
  {
    if configured == map[] then fallback else configured
  }

  /** `obj.data`: the two maps of a configuration. */
  datatype Config = Config(customers: map<string, Customer>, employees: map<string, Employee>)

  /** A message `{command, data}`; `data` may be missing. */
  datatype Message = Message(command: string, data: Option<Config>)

  /** The answer sent back: `{result: 'ok'}` or the configuration. */
  datatype Reply = Saved | ConfigReply(config: Config)

  // ---------------------------------------------------------------------------
  // The adapter
  // ---------------------------------------------------------------------------

  /** Removing a key and then setting it is the same as setting it. */
  lemma RemoveThenSet<K, V>(m: map<K, V>, k: K, v: V)
    ensures (m - {k})[k := v] == m[k := v]
  {
    assert (m - {k})[k := v].Keys == m[k := v].Keys;
  }

  /** Before the upsert loop nothing is placed; after it, everything is. */
  lemma UpsertBounds(start: map<string, TreeObject>, prefix: string, channels: map<string, TreeObject>, ids: seq<string>)
    ensures start + Placed(prefix, channels - channels.Keys) == start
    ensures Elements(ids) - Placed(prefix, channels - channels.Keys).Keys == Elements(ids)
    ensures channels - {} == channels
  {
    assert channels - channels.Keys == map[];
    assert Placed(prefix, map[]) == map[];
  }

  /** One round of the upsert loop: writing `<prefix><key>` places one more key, and strikes its id. */
  lemma UpsertStep(start: map<string, TreeObject>, prefix: string, channels: map<string, TreeObject>,
                   pending: set<string>, key: string, ids: seq<string>, left: seq<string>)
    requires key in pending && pending <= channels.Keys
    requires Elements(left) == Elements(ids) - Placed(prefix, channels - pending).Keys
    ensures (start + Placed(prefix, channels - pending))[prefix + key := channels[key]]
         == start + Placed(prefix, channels - (pending - {key}))
    ensures Elements(Without(left, prefix + key)) == Elements(ids) - Placed(prefix, channels - (pending - {key})).Keys
  {
    var done := channels - pending;
    PlacedUpdate(prefix, done, key, channels[key]);
    assert done[key := channels[key]] == channels - (pending - {key});
    UnionUpdate(start, Placed(prefix, done), prefix + key, channels[key]);
  }

  /** Updating a union at one key updates its right operand. */
  lemma UnionUpdate<K, V>(a: map<K, V>, b: map<K, V>, k: K, v: V)
    ensures (a + b)[k := v] == a + b[k := v]
  {
    assert ((a + b)[k := v]).Keys == (a + b[k := v]).Keys;
  }

  class WorkTimeAdapter {
    const tree: ObjectTree
    var customers: map<string, Customer>
    var employees: map<string, Employee>
    var activeSessions: map<string, Session>
    var workLog: seq<LogEntry>

    /**
     * An adapter with the given configuration, no sessions, an empty log and an
     * empty object tree in the namespace, or in the default one when none is given.
     */
    constructor (namespace: Option<string>, customers: map<string, Customer>, employees: map<string, Employee>)
      ensures fresh(tree) && tree.objects == map[]
      ensures namespace.Some? && namespace.value != [] ==> tree.namespace == namespace.value
      ensures namespace.None? || namespace.value == [] ==> tree.namespace == DefaultNamespace
      ensures this.customers == customers && this.employees == employees
      ensures activeSessions == map[] && workLog == []
    {
      tree := new ObjectTree(namespace);
      this.customers := customers;
      this.employees := employees;
      activeSessions := map[];
      workLog := [];
    }

    /**
     * The loop shared by `updateCustomerObjects` and `updateEmployeeObjects`:
     * list the section's ids, write one channel per configured key and drop its
     * id from the list, then delete every id left on the list.
     */
    method ReconcileSection(prefix: string, channels: map<string, TreeObject>)
      modifies tree
      ensures tree.objects == Reconciled(old(tree.objects), prefix, Placed(prefix, channels))
    {
      var rows := tree.GetObjectView(prefix, prefix + [SectionEnd]);
      var existingIds := Ids(rows);
      IdsElements(rows);
      existingIds := UpsertChannels(prefix, channels, existingIds);
      DeleteIds(existingIds);
    }

    /** The first loop: write `<prefix><key>` for every key, striking each written id from `ids`. */
    method UpsertChannels(prefix: string, channels: map<string, TreeObject>, ids: seq<string>) returns (left: seq<string>)
      modifies tree
      ensures tree.objects == old(tree.objects) + Placed(prefix, channels)
      ensures Elements(left) == Elements(ids) - Placed(prefix, channels).Keys
    {
      left := ids;
      var pending := channels.Keys;
      UpsertBounds(old(tree.objects), prefix, channels, ids);
      while pending != {}
        invariant pending <= channels.Keys
        invariant tree.objects == old(tree.objects) + Placed(prefix, channels - pending)
        invariant Elements(left) == Elements(ids) - Placed(prefix, channels - pending).Keys
        decreases |pending|
      {
        var key :| key in pending;
        var objId := prefix + key;
        UpsertStep(old(tree.objects), prefix, channels, pending, key, ids, left);
        tree.SetObject(objId, channels[key]);
        left := Without(left, objId);
        pending := pending - {key};
      }
    }

    /** The second loop: delete every id of `ids`. */
    method DeleteIds(ids: seq<string>)
      modifies tree
      ensures tree.objects == old(tree.objects) - Elements(ids)
    {
      var i := 0;
      while i < |ids|
        invariant 0 <= i <= |ids|
        invariant tree.objects == old(tree.objects) - Elements(ids[..i])
      {
        tree.DelObject(ids[i]);
        assert Elements(ids[..i + 1]) == Elements(ids[..i]) + {ids[i]} by {
          assert ids[..i + 1] == ids[..i] + [ids[i]];
        }
        i := i + 1;
      }
      assert ids[..i] == ids;
    }

    /** `updateCustomerObjects()`. */
    method UpdateCustomerObjects()
      modifies tree
      ensures tree.objects == Reconciled(old(tree.objects), CustomerPrefix(tree.namespace), CustomerObjects(tree.namespace, customers))
    {
      ReconcileSection(CustomerPrefix(tree.namespace), CustomerChannels(customers));
    }

    /** `updateEmployeeObjects()`. */
    method UpdateEmployeeObjects()
      modifies tree
      ensures tree.objects == Reconciled(old(tree.objects), EmployeePrefix(tree.namespace), EmployeeObjects(tree.namespace, employees))
    {
      ReconcileSection(EmployeePrefix(tree.namespace), EmployeeChannels(employees));
    }

    /** The first half of `onReady()`: install the default customers and employees where none are configured. */
    method InstallDefaults()
      modifies this
      ensures customers == WithDefault(old(customers), DefaultCustomers())
      ensures employees == WithDefault(old(employees), DefaultEmployees())
      ensures activeSessions == old(activeSessions) && workLog == old(workLog)
    {
      if customers == map[] {
        customers := DefaultCustomers();
      }
      if employees == map[] {
        employees := DefaultEmployees();
      }
    }

    /** `onReady()`: install the default customers and employees where none are configured, then update the tree. */
    method OnReady()
      modifies this, tree
      ensures customers == WithDefault(old(customers), DefaultCustomers())
      ensures employees == WithDefault(old(employees), DefaultEmployees())
      ensures activeSessions == old(activeSessions) && workLog == old(workLog)
      ensures tree.objects == TreeAfterUpdate(old(tree.objects), tree.namespace, customers, employees)
    {
      InstallDefaults();
      UpdateTree();
    }

    /** `updateCustomerObjects()` followed by `updateEmployeeObjects()`, as `onReady` and `saveConfig` run them. */
    method UpdateTree()
      modifies tree
      ensures tree.objects == TreeAfterUpdate(old(tree.objects), tree.namespace, customers, employees)
    {
      UpdateCustomerObjects();
      UpdateEmployeeObjects();
    }

    /** The `saveConfig` branch of `onMessage`: replace both maps, then update the tree. */
    method SaveConfig(config: Config)
      modifies this, tree
      ensures customers == config.customers && employees == config.employees
      ensures activeSessions == old(activeSessions) && workLog == old(workLog)
      ensures tree.objects == TreeAfterUpdate(old(tree.objects), tree.namespace, customers, employees)
    {
      ReplaceConfig(config);
      UpdateTree();
    }

    /** The assignments `this.customers = obj.data.customers; this.employees = obj.data.employees`. */
    method ReplaceConfig(config: Config)
      modifies this
      ensures customers == config.customers && employees == config.employees
      ensures activeSessions == old(activeSessions) && workLog == old(workLog)
    {
      customers := config.customers;
      employees := config.employees;
    }

    /**
     * `onMessage(obj)`: `saveConfig` replaces both maps, updates the tree and
     * answers `{result: 'ok'}`; `getConfig` answers with the configuration;
     * anything else, and `saveConfig` without data (which throws before any
     * change), changes nothing and gets no answer.
     */
    method OnMessage(msg: Option<Message>) returns (reply: Option<Reply>)
      modifies this, tree
      ensures activeSessions == old(activeSessions) && workLog == old(workLog)
      ensures msg.Some? && msg.value.command == "saveConfig" && msg.value.data.Some? ==>
        && customers == msg.value.data.value.customers && employees == msg.value.data.value.employees
        && tree.objects == TreeAfterUpdate(old(tree.objects), tree.namespace, customers, employees)
        && reply == Some(Saved)
      ensures msg.Some? && msg.value.command == "getConfig" ==>
        reply == Some(ConfigReply(Config(customers, employees)))
      ensures !(msg.Some? && msg.value.command == "saveConfig" && msg.value.data.Some?) ==>
        customers == old(customers) && employees == old(employees) && tree.objects == old(tree.objects)
      ensures !(msg.Some? && msg.value.command in {"saveConfig", "getConfig"}) ==> reply == None
      ensures msg.Some? && msg.value.command == "saveConfig" && msg.value.data.None? ==> reply == None
    {
      if msg.Some? && msg.value.command == "saveConfig" {
        if msg.value.data.None? {
          return None;
        }
        SaveConfig(msg.value.data.value);
        reply := Some(Saved);
      } else if msg.Some? && msg.value.command == "getConfig" {
        reply := Some(ConfigReply(Config(customers, employees)));
      } else {
        reply := None;
      }
    }

    /** `closeSession(deviceKey, endTime)`: log the device's session as ending at `endTime` and remove it. */
    method CloseSession(deviceKey: string, endTime: int) returns (r: CloseResult)
      modifies this
      ensures r == CloseSessionResult(old(customers), old(employees), old(activeSessions), deviceKey, endTime)
      ensures r.ClosedWith? ==> activeSessions == old(activeSessions) - {deviceKey} && workLog == old(workLog) + [r.entry]
      ensures !r.ClosedWith? ==> activeSessions == old(activeSessions) && workLog == old(workLog)
      ensures customers == old(customers) && employees == old(employees)
    {
      if deviceKey !in activeSessions {
        return NothingToClose;
      }
      var session := activeSessions[deviceKey];
      if deviceKey !in employees {
        return CloseFailed;
      }
      var logEntry := BuildLogEntry(employees[deviceKey], customers, session, endTime);
      assert ClosedWith(logEntry) == CloseSessionResult(customers, employees, activeSessions, deviceKey, endTime);
      workLog := workLog + [logEntry];
      activeSessions := activeSessions - {deviceKey};
      r := ClosedWith(logEntry);
    }

    /** Active, another customer key: close the session at `timestamp`, then open one for `newValue`. */
    method SwitchSession(deviceKey: string, newValue: string, timestamp: int)
      requires deviceKey in employees && deviceKey in activeSessions
      modifies this
      ensures customers == old(customers) && employees == old(employees)
      ensures activeSessions == old(activeSessions)[deviceKey := Session(newValue, timestamp, "")]
      ensures workLog == old(workLog) + LogOf(customers, Some(Closing(employees[deviceKey], old(activeSessions)[deviceKey], timestamp)))
    {
      ghost var before := activeSessions;
      ghost var logged := LogOf(customers, Some(Closing(employees[deviceKey], activeSessions[deviceKey], timestamp)));
      ClosedEntryIsLogged(customers, employees, activeSessions, deviceKey, timestamp);
      var closed := CloseSession(deviceKey, timestamp);
      assert workLog == old(workLog) + logged;
      RemoveThenSet(before, deviceKey, Session(newValue, timestamp, ""));
      activeSessions := activeSessions[deviceKey := Session(newValue, timestamp, "")];
    }

    /** Active, a sentinel value: close the session at `timestamp`. */
    method EndSession(deviceKey: string, timestamp: int)
      requires deviceKey in employees && deviceKey in activeSessions
      modifies this
      ensures customers == old(customers) && employees == old(employees)
      ensures activeSessions == old(activeSessions) - {deviceKey}
      ensures workLog == old(workLog) + LogOf(customers, Some(Closing(employees[deviceKey], old(activeSessions)[deviceKey], timestamp)))
    {
      ClosedEntryIsLogged(customers, employees, activeSessions, deviceKey, timestamp);
      var closed := CloseSession(deviceKey, timestamp);
    }

    /**
     * The part of `onStateChange` after the employee lookup: open, keep,
     * switch or close the session of `deviceKey` for the trimmed value
     * `newValue` at time `timestamp`.
     */
    method StepDevice(deviceKey: string, newValue: string, timestamp: int) returns (outcome: Outcome)
      requires deviceKey in employees
      modifies this
      ensures var t := DeviceStep(old(employees)[deviceKey], old(activeSessions), deviceKey, newValue, timestamp);
        outcome == t.outcome && activeSessions == t.sessions && workLog == old(workLog) + LogOf(old(customers), t.closing)
      ensures customers == old(customers) && employees == old(employees)
    {
      if IsCustomerKey(newValue) {
        if deviceKey !in activeSessions {
          activeSessions := activeSessions[deviceKey := Session(newValue, timestamp, "")];
          outcome := Opened;
        } else if activeSessions[deviceKey].customer != newValue {
          SwitchSession(deviceKey, newValue, timestamp);
          outcome := Switched;
        } else {
          outcome := Kept;
        }
      } else if deviceKey in activeSessions {
        EndSession(deviceKey, timestamp);
        outcome := Closed;
      } else {
        outcome := StayedIdle;
      }
    }

    /** `onStateChange(id, state)`, with `now` the reading of `Date.now()`. */
    method OnStateChange(id: string, state: Option<StateUpdate>, now: int) returns (outcome: Outcome)
      modifies this
      ensures var t := StateChange(old(employees), old(activeSessions), id, state, now);
        outcome == t.outcome && activeSessions == t.sessions && workLog == old(workLog) + LogOf(old(customers), t.closing)
      ensures customers == old(customers) && employees == old(employees)
    {
      if state.None? || state.value.val.Undefined? {
        return Ignored;
      }
      var match_ := DeviceKeyOf(id);
      if match_.None? {
        return Ignored;
      }
      var deviceKey := match_.value;
      if deviceKey !in employees {
        return NoEmployee;
      }
      if state.value.val.Null? {
        return Failed;
      }
      var newValue := Trim(state.value.val.text);
      var timestamp := EffectiveTimestamp(state.value.ts, now);
      outcome := StepDevice(deviceKey, newValue, timestamp);
    }
  }

  // ---------------------------------------------------------------------------
  // The run of test_full.js
  // ---------------------------------------------------------------------------

  /** The configuration the run saves: one customer and one employee, both new. */
  function NewConfig(): Config
  {
    Config(map["New-Customer" := Customer("New-Customer", "Neue Straße 10, Neustadt", 60.0, "Support")],
           map["traccar.0.devices.3" := Employee("Anna", "Neukunde")])
  }

  /** A key that starts with a character below `'香'` sorts below `'香'`. */
  lemma LowLeadInSection(k: string)
    requires k != [] && k[0] < SectionEnd
    ensures LexLe(k, [SectionEnd])
  {
  }

  /** The ids of the channels of one configured key. */
  lemma PlacedSingle(prefix: string, channels: map<string, TreeObject>, k: string)
    requires channels.Keys == {k}
    ensures Placed(prefix, channels).Keys == {prefix + k}
  {
    PlacedAt(prefix, channels);
  }

  /** The first update of the run, from an empty tree with the default configuration, leaves channels of the two sections only. */
  lemma FirstUpdateInSections(ns: string)
    ensures InSections(TreeAfterUpdate(map[], ns, DefaultCustomers(), DefaultEmployees()), ns)
  {
    LowLeadInSection("Home-Herrengasse");
    LowLeadInSection("Office-Mitte");
    LowLeadInSection("traccar.0.devices.1");
    LowLeadInSection("traccar.0.devices.2");
    UpdateKeysExact(map[], ns, DefaultCustomers(), DefaultEmployees());
  }

  /** Updating a tree of section channels for one customer key and one employee key leaves exactly their two channels. */
  lemma SingleKeysUpdate(objects: map<string, TreeObject>, ns: string,
                         customers: map<string, Customer>, employees: map<string, Employee>, ck: string, ek: string)
    requires customers.Keys == {ck} && employees.Keys == {ek} && InSections(objects, ns)
    requires ck != [] && ck[0] < SectionEnd && ek != [] && ek[0] < SectionEnd
    ensures TreeAfterUpdate(objects, ns, customers, employees).Keys == {CustomerPrefix(ns) + ck, EmployeePrefix(ns) + ek}
  {
    LowLeadInSection(ck);
    LowLeadInSection(ek);
    UpdateKeysExact(objects, ns, customers, employees);
    PlacedSingle(CustomerPrefix(ns), CustomerChannels(customers), ck);
    PlacedSingle(EmployeePrefix(ns), EmployeeChannels(employees), ek);
  }

  /** Saving the new configuration over a tree of section channels leaves exactly its two channels. */
  lemma SavedTreeKeys(objects: map<string, TreeObject>, ns: string, config: Config)
    requires ns == "ictb-time.0" && config == NewConfig() && InSections(objects, ns)
    ensures TreeAfterUpdate(objects, ns, config.customers, config.employees).Keys
      == {"ictb-time.0.kunden.New-Customer", "ictb-time.0.mitarbeiter.traccar.0.devices.3"}
  {
    var ck, ek := "New-Customer", "traccar.0.devices.3";
    assert config.customers.Keys == {ck} && config.employees.Keys == {ek};
    SingleKeysUpdate(objects, ns, config.customers, config.employees, ck, ek);
    SavedCustomerId(ns, ck);
    SavedEmployeeId(ns, ek);
  }

  /** The id of the saved customer's channel. */
  lemma SavedCustomerId(ns: string, ck: string)
    requires ns == "ictb-time.0" && ck == "New-Customer"
    ensures CustomerPrefix(ns) + ck == "ictb-time.0.kunden.New-Customer"
  {
    assert CustomerPrefix(ns) == "ictb-time.0.kunden.";
  }

  /** The id of the saved employee's channel. */
  lemma SavedEmployeeId(ns: string, ek: string)
    requires ns == "ictb-time.0" && ek == "traccar.0.devices.3"
    ensures EmployeePrefix(ns) + ek == "ictb-time.0.mitarbeiter.traccar.0.devices.3"
  {
    assert EmployeePrefix(ns) == "ictb-time.0.mitarbeiter.";
  }

  /**
   * The run of test_full.js: an adapter over an empty tree with the two default
   * customers and employees updates its tree, saves the new configuration with
   * `saveConfig`, and reads it back with `getConfig`. The save is acknowledged,
   * the read returns the saved maps, and only the two new channels remain.
   */
  method RunFullTest() returns (ids: set<string>, saveReply: Option<Reply>, getReply: Option<Reply>)
    ensures ids == {"ictb-time.0.kunden.New-Customer", "ictb-time.0.mitarbeiter.traccar.0.devices.3"}
    ensures saveReply == Some(Saved)
    ensures getReply == Some(ConfigReply(NewConfig()))
  {
    var adapter := new WorkTimeAdapter(Some(DefaultNamespace), DefaultCustomers(), DefaultEmployees());
    var ns := adapter.tree.namespace;
    adapter.UpdateTree();
    FirstUpdateInSections(ns);
    ghost var first := adapter.tree.objects;
    var config := NewConfig();
    saveReply := adapter.OnMessage(Some(Message("saveConfig", Some(config))));
    SavedTreeKeys(first, ns, config);
    getReply := adapter.OnMessage(Some(Message("getConfig", None)));
    ids := adapter.tree.objects.Keys;
  }
}
