/** The radio-side router: it turns bus requests into ZCL frames sent to
    nodes (Read Attributes, section 2.5.1 of the Zigbee Cluster Library
    specification, and cluster-specific commands), answers explore requests
    from the stack's queries, decides permit-join, saves nodes in the
    registry, and turns incoming Read Attributes Responses (2.5.2), Report
    Attributes (2.5.11), Default Responses (2.5.12) and IAS Zone status
    changes into device messages. Also the earlier message service and
    handlers, which only forward attribute reports. */
module RadioRouter {
  import opened Common
  import opened FieldSetter
  import opened Zigbee
  import opened Messages
  import opened Catalog
  import opened Registry
  import opened Topics

  /** What a handler does that can be seen from outside, in order. Send is
      SendApplicationMessageToNode with its acknowledgement flag; Publish is
      a publish on the bus client; NilCall is a call through a callback that
      was never registered; Panic is a nil pointer dereference, which in Go
      ends the whole process. */
  datatype Effect =
    | PermitJoinCall(permit: bool)
    | DenyJoinCall
    | Send(address: U64, frame: seq<U8>, acknowledged: bool)
    | DeviceMessageOut(deviceMessage: DeviceMessage)
    | DescriptionOut(description: DeviceDescriptionMessage)
    | JoinOut(joined: Node)
    | LeaveOut(left: Node)
    | UpdateOut(updated: Node)
    | ReportOut(report: LegacyReport)
    | Publish(topic: string, payload: seq<U8>)
    | NilCall
    | Panic

  /** Which callbacks are registered. */
  datatype Callbacks = Callbacks(onDeviceMessage: bool, onDescription: bool, onJoin: bool, onLeave: bool, onUpdate: bool)

  const NO_CALLBACKS: Callbacks := Callbacks(false, false, false, false, false)

  // ---------------------------------------------------------------------
  // Saving nodes.

  /** saveNodeDB: the seven node fields as a registry record. */
  function DeviceOf(node: Node): Device
  {
    Device(node.ieeeAddress, node.networkAddress, node.logicalType, node.lqi, node.depth,
           node.lastDiscovered, node.lastReceived)
  }

  function NodeOf(d: Device): Node
  {
    Node(d.ieeeAddress, d.networkAddress, d.logicalType, d.lqi, d.depth, d.lastDiscovered, d.lastReceived)
  }

  /** No node field is lost: the saved record gives the node back. */
  lemma SavedRecordKeepsNode(node: Node)
    ensures NodeOf(DeviceOf(node)) == node
    ensures DeviceOf(NodeOf(DeviceOf(node))) == DeviceOf(node)
  {
  }

  /** After a node is saved, the registry answers for its address with it. */
  lemma SavedNodeIsFound(store: Store, node: Node)
    ensures Lookup(Saved(store, DeviceOf(node)), node.ieeeAddress) == (DeviceOf(node), None)
  {
    LookupAfterSave(store, DeviceOf(node));
  }

  // ---------------------------------------------------------------------
  // Permit-join.

  /** The stack calls ProccessSetDeviceConfigMessage makes. */
  function JoinPolicyCalls(configured: bool, requested: bool): seq<Effect>
  {
    if requested == configured then []
    else if requested then [PermitJoinCall(true)]
    else [DenyJoinCall]
  }

  /** No call when the request matches the configuration; otherwise exactly
      one, permitting or denying as requested. */
  lemma JoinPolicy(configured: bool, requested: bool)
    ensures |JoinPolicyCalls(configured, requested)| <= 1
    ensures JoinPolicyCalls(configured, requested) == [] <==> requested == configured
    ensures JoinPolicyCalls(configured, requested) == [PermitJoinCall(true)] <==> requested && !configured
    ensures JoinPolicyCalls(configured, requested) == [DenyJoinCall] <==> !requested && configured
  {
  }

  // ---------------------------------------------------------------------
  // Explore.

  function Summary(d: EndpointDescription): EndpointSummary
  {
    EndpointSummary(d.endpoint, d.profileId, d.deviceId, d.deviceVersion, d.inClusterList, d.outClusterList)
  }

  /** One summary per endpoint whose description query succeeds, in query order. */
  function EndpointsOf(stack: Stack, address: U64, endpoints: seq<U8>): seq<EndpointSummary>
  {
    if endpoints == [] then []
    else
      var last := endpoints[|endpoints| - 1];
      EndpointsOf(stack, address, endpoints[..|endpoints| - 1])
      + (if (address, last) in stack.endpointDescriptions
         then [Summary(stack.endpointDescriptions[(address, last)])] else [])
  }

  /** The explore result, or None when a node query fails. */
  function Description(stack: Stack, address: U64): Option<DeviceDescriptionMessage>
  {
    if address !in stack.nodeDescriptions || address !in stack.nodeEndpoints then None
    else
      var nd := stack.nodeDescriptions[address];
      Some(DeviceDescriptionMessage(address, nd.logicalType, nd.manufacturerCode,
                                    EndpointsOf(stack, address, stack.nodeEndpoints[address])))
  }

  /** The description callback is called unguarded. */
  function ExploreEffects(stack: Stack, cbs: Callbacks, address: U64): seq<Effect>
  {
    match Description(stack, address)
    case None => []
    case Some(d) => if cbs.onDescription then [DescriptionOut(d)] else [NilCall]
  }

  lemma {:induction false} EndpointsOfAppend(stack: Stack, address: U64, a: seq<U8>, b: seq<U8>)
    ensures EndpointsOf(stack, address, a + b) == EndpointsOf(stack, address, a) + EndpointsOf(stack, address, b)
    decreases |b|
  {
    if b == [] {
      assert a + b == a;
    } else {
      var front := b[..|b| - 1];
      assert (a + b)[..|a + b| - 1] == a + front;
      EndpointsOfAppend(stack, address, a, front);
    }
  }

  /** Successful queries give one summary each, in order; failed ones are
      skipped. */
  lemma {:induction false} EndpointsFollowQueries(stack: Stack, address: U64, endpoints: seq<U8>)
    ensures |EndpointsOf(stack, address, endpoints)| <= |endpoints|
    ensures (forall i :: 0 <= i < |endpoints| ==> (address, endpoints[i]) !in stack.endpointDescriptions)
      ==> EndpointsOf(stack, address, endpoints) == []
    ensures (forall i :: 0 <= i < |endpoints| ==> (address, endpoints[i]) in stack.endpointDescriptions)
      ==> |EndpointsOf(stack, address, endpoints)| == |endpoints|
          && forall i :: 0 <= i < |endpoints| ==>
               EndpointsOf(stack, address, endpoints)[i] == Summary(stack.endpointDescriptions[(address, endpoints[i])])
  {
    if endpoints != [] {
      var front := endpoints[..|endpoints| - 1];
      EndpointsFollowQueries(stack, address, front);
      assert forall i :: 0 <= i < |front| ==> front[i] == endpoints[i];
    }
  }

  /** Explore publishes nothing when the node descriptor or the endpoint
      list cannot be queried. */
  lemma ExploreNeedsBothQueries(stack: Stack, cbs: Callbacks, address: U64)
    ensures ExploreEffects(stack, cbs, address) == [] <==>
      address !in stack.nodeDescriptions || address !in stack.nodeEndpoints
    ensures address in stack.nodeDescriptions && address in stack.nodeEndpoints && cbs.onDescription ==>
      ExploreEffects(stack, cbs, address) ==
        [DescriptionOut(DeviceDescriptionMessage(address, stack.nodeDescriptions[address].logicalType,
                                                 stack.nodeDescriptions[address].manufacturerCode,
                                                 EndpointsOf(stack, address, stack.nodeEndpoints[address])))]
  {
  }

  // ---------------------------------------------------------------------
  // Read Attributes requests.

  /** The frame ProccessGetMessageToDevice marshals. */
  function ReadRequest(req: DeviceGetMessage): ZclMessage
  {
    ZclMessage(FrameGlobal, ClientToServer, 1, NO_MANUFACTURER, req.clusterId, GATEWAY_ENDPOINT,
               req.endpoint, READ_ATTRIBUTES_ID, ReadAttributes(req.attributes))
  }

  function GetEffects(stack: Stack, req: DeviceGetMessage): seq<Effect>
  {
    if ReadRequest(req) !in stack.marshal then []
    else [Send(req.ieeeAddress, stack.marshal[ReadRequest(req)], false)]
  }

  /** The request that is sent, if any, is a global Read Attributes frame
      from endpoint 1 to the requested endpoint that asks for the requested
      attributes in the requested order. */
  lemma GetSendsReadAttributes(stack: Stack, req: DeviceGetMessage)
    ensures |GetEffects(stack, req)| <= 1
    ensures GetEffects(stack, req) != [] <==>
      exists m :: m in stack.marshal && m.frameType == FrameGlobal && m.command == ReadAttributes(req.attributes)
                  && m.sourceEndpoint == 1 && m.destinationEndpoint == req.endpoint
                  && m.clusterId == req.clusterId && m.commandIdentifier == READ_ATTRIBUTES_ID
                  && m.transactionSequence == 1 && m.manufacturer == NO_MANUFACTURER
                  && m.direction == ClientToServer
    ensures forall e :: e in GetEffects(stack, req) ==> e.Send? && e.address == req.ieeeAddress
  {
    if GetEffects(stack, req) == [] {
      forall m | m in stack.marshal && m.frameType == FrameGlobal && m.command == ReadAttributes(req.attributes)
                 && m.sourceEndpoint == 1 && m.destinationEndpoint == req.endpoint
                 && m.clusterId == req.clusterId && m.commandIdentifier == READ_ATTRIBUTES_ID
                 && m.transactionSequence == 1 && m.manufacturer == NO_MANUFACTURER
                 && m.direction == ClientToServer
        ensures false
      {
      }
    } else {
      assert ReadRequest(req) in stack.marshal;
    }
  }

  // ---------------------------------------------------------------------
  // Cluster-specific commands.

  function CommandKeyOf(req: DeviceCommandMessage): CommandKey
  {
    CommandKey(req.clusterId, NO_MANUFACTURER, ClientToServer, req.commandIdentifier)
  }

  /** The frame carrying the command struct after its fields were set. */
  function LocalFrame(req: DeviceCommandMessage, fields: map<string, Field>): ZclMessage
  {
    ZclMessage(FrameLocal, ClientToServer, 1, NO_MANUFACTURER, req.clusterId, GATEWAY_ENDPOINT,
               req.endpoint, req.commandIdentifier, Local(fields))
  }

  /** Every member of CommandData that names a field of the command struct
      holds a value the setter can store (see FieldSetter.Settable). */
  predicate SettableData(stack: Stack, req: DeviceCommandMessage)
  {
    CommandKeyOf(req) in stack.localCommands ==>
      forall k :: k in req.commandData && k in stack.localCommands[CommandKeyOf(req)] ==>
        Settable(stack.localCommands[CommandKeyOf(req)][k], req.commandData[k])
  }

  function SendCommandEffects(stack: Stack, req: DeviceCommandMessage): seq<Effect>
    requires SettableData(stack, req)
  {
    if CommandKeyOf(req) !in stack.localCommands then []
    else
      var frame := LocalFrame(req, Applied(Legacy, stack.localCommands[CommandKeyOf(req)], req.commandData));
      if frame !in stack.marshal then [] else [Send(req.ieeeAddress, stack.marshal[frame], false)]
  }

  /** An unknown command is neither marshalled nor sent; a known one is sent
      with the command struct's fields set from CommandData, and only fields
      CommandData names can differ from the struct's zero value. */
  lemma SendCommandGuarded(stack: Stack, req: DeviceCommandMessage)
    requires SettableData(stack, req)
    ensures CommandKeyOf(req) !in stack.localCommands ==> SendCommandEffects(stack, req) == []
    ensures SendCommandEffects(stack, req) != [] ==>
      exists fields :: LocalFrame(req, fields) in stack.marshal
        && SendCommandEffects(stack, req) == [Send(req.ieeeAddress, stack.marshal[LocalFrame(req, fields)], false)]
        && fields.Keys == stack.localCommands[CommandKeyOf(req)].Keys
        && forall k :: k in fields && fields[k] != stack.localCommands[CommandKeyOf(req)][k] ==> k in req.commandData
  {
    if SendCommandEffects(stack, req) != [] {
      var template := stack.localCommands[CommandKeyOf(req)];
      var fields := Applied(Legacy, template, req.commandData);
      forall k | k in fields && fields[k] != template[k] ensures k in req.commandData {
        OnlyNamedExportedFieldsChange(Legacy, template, req.commandData, k);
      }
      assert LocalFrame(req, fields) in stack.marshal;
    }
  }

  // ---------------------------------------------------------------------
  // Incoming frames.

  /** The name-keyed attribute map: each record's value under the schema
      name of its attribute, later records overwriting earlier ones. */
  function AttributeMap(def: ClusterDefinition, records: seq<AttributeRecord>): map<string, DataValue>
  {
    if records == [] then map[]
    else
      var last := records[|records| - 1];
      AttributeMap(def, records[..|records| - 1])[AttributeName(def, last.identifier) := last.value]
  }

  /** The keys are exactly the schema names of the records' attributes. */
  lemma {:induction false} AttributeMapKeys(def: ClusterDefinition, records: seq<AttributeRecord>, k: string)
    ensures k in AttributeMap(def, records) <==>
      exists i :: 0 <= i < |records| && AttributeName(def, records[i].identifier) == k
  {
    if records != [] {
      var front := records[..|records| - 1];
      AttributeMapKeys(def, front, k);
      if k in AttributeMap(def, front) {
        var i :| 0 <= i < |front| && AttributeName(def, front[i].identifier) == k;
        assert records[i] == front[i];
      }
      if exists i :: 0 <= i < |records| && AttributeName(def, records[i].identifier) == k {
        var i :| 0 <= i < |records| && AttributeName(def, records[i].identifier) == k;
        if i < |front| {
          assert front[i] == records[i];
        }
      }
    }
  }

  /** A key holds the value of the last record carrying its name. */
  lemma {:induction false} AttributeMapLastWins(def: ClusterDefinition, records: seq<AttributeRecord>, i: nat)
    requires i < |records|
    requires forall j :: i < j < |records| ==>
      AttributeName(def, records[j].identifier) != AttributeName(def, records[i].identifier)
    ensures AttributeName(def, records[i].identifier) in AttributeMap(def, records)
    ensures AttributeMap(def, records)[AttributeName(def, records[i].identifier)] == records[i].value
  {
    if i < |records| - 1 {
      var front := records[..|records| - 1];
      assert front[i] == records[i];
      forall j | i < j < |front|
        ensures AttributeName(def, front[j].identifier) != AttributeName(def, front[i].identifier)
      {
        assert front[j] == records[j];
      }
      AttributeMapLastWins(def, front, i);
    }
  }

  /** With an unknown cluster every value lands under the empty name. */
  lemma UnknownClusterUsesEmptyName(cat: ClusterCatalog, clusterId: U16, records: seq<AttributeRecord>)
    requires clusterId !in cat
    ensures AttributeMap(GetById(cat, clusterId), records).Keys <= {""}
  {
    forall k | k in AttributeMap(GetById(cat, clusterId), records) ensures k == "" {
      AttributeMapKeys(GetById(cat, clusterId), records, k);
    }
  }

  /** Every record of a read response carries a value. */
  predicate AllRead(results: seq<ReadRecord>)
  {
    forall i :: 0 <= i < |results| ==> results[i].value.Some?
  }

  /** The records of a fully successful read response as attribute records,
      in order. */
  function ReadRecords(results: seq<ReadRecord>): (r: seq<AttributeRecord>)
    requires AllRead(results)
    ensures |r| == |results|
    ensures forall i :: 0 <= i < |results| ==>
      r[i].identifier == results[i].identifier && results[i].value == Some(r[i].value)
  {
    if results == [] then []
    else
      var last := results[|results| - 1];
      ReadRecords(results[..|results| - 1]) + [AttributeRecord(last.identifier, last.value.value)]
  }

  /** A record without a value spoils the whole response. */
  lemma NotAllRead(results: seq<ReadRecord>, i: nat)
    requires i < |results| && results[i].value.None?
    ensures !AllRead(results)
  {
  }

  /** Extending a fully read prefix by one record with a value. */
  lemma ReadRecordsStep(results: seq<ReadRecord>, i: nat)
    requires i < |results| && AllRead(results[..i]) && results[i].value.Some?
    ensures AllRead(results[..i + 1])
    ensures ReadRecords(results[..i + 1])
      == ReadRecords(results[..i]) + [AttributeRecord(results[i].identifier, results[i].value.value)]
  {
    var longer := results[..i + 1];
    assert longer[..i] == results[..i];
    forall j | 0 <= j < |longer| ensures longer[j].value.Some? {
      if j < i {
        assert longer[j] == results[..i][j];
      }
    }
  }

  lemma AttributeMapStep(def: ClusterDefinition, records: seq<AttributeRecord>, r: AttributeRecord)
    ensures AttributeMap(def, records + [r]) == AttributeMap(def, records)[AttributeName(def, r.identifier) := r.value]
  {
    assert (records + [r])[..|records|] == records;
  }

  /** The device message for a report or a read response. */
  function AttributesMessage(cat: ClusterCatalog, msg: IncomingMessage, records: seq<AttributeRecord>): DeviceMessage
  {
    var def := GetById(cat, msg.applicationMessage.clusterId);
    DeviceMessage(msg.sourceAddress, msg.linkQuality, AttributesReport(def.id, def.name, AttributeMap(def, records)))
  }

  /** A default response: the envelope's cluster, the echoed command, the status. */
  function DefaultResponseMessage(msg: IncomingMessage, commandIdentifier: U8, status: U8): DeviceMessage
  {
    DeviceMessage(msg.sourceAddress, msg.linkQuality,
                  DefaultResponseReport(msg.applicationMessage.clusterId, commandIdentifier, status))
  }

  function ZoneStatusMessage(cat: ClusterCatalog, msg: IncomingMessage, change: ZoneStatusChange): DeviceMessage
  {
    var def := GetById(cat, msg.applicationMessage.clusterId);
    DeviceMessage(msg.sourceAddress, msg.linkQuality, ZoneStatusReport(def.id, def.name, change))
  }

  function Forward(cbs: Callbacks, m: DeviceMessage): seq<Effect>
  {
    if cbs.onDeviceMessage then [DeviceMessageOut(m)] else []
  }

  /** The device message an incoming frame turns into, if any. */
  function Translate(stack: Stack, cat: ClusterCatalog, msg: IncomingMessage): Option<DeviceMessage>
  {
    if msg.applicationMessage !in stack.unmarshal then None
    else match stack.unmarshal[msg.applicationMessage].command
      case ReportAttributes(records) => Some(AttributesMessage(cat, msg, records))
      case ReadAttributesResponse(results) =>
        if AllRead(results) then Some(AttributesMessage(cat, msg, ReadRecords(results))) else None
      case DefaultResponse(commandIdentifier, status) => Some(DefaultResponseMessage(msg, commandIdentifier, status))
      case ZoneStatusChangeNotification(change) => Some(ZoneStatusMessage(cat, msg, change))
      case _ => None
  }

  /** The frame is a read response with a failed record: the attribute loop
      reads that record's nil value and panics before any callback runs. */
  predicate ReadsNilValue(stack: Stack, msg: IncomingMessage)
  {
    msg.applicationMessage in stack.unmarshal
    && var c := stack.unmarshal[msg.applicationMessage].command;
       c.ReadAttributesResponse? && !AllRead(c.results)
  }

  function IncomingEffects(stack: Stack, cat: ClusterCatalog, cbs: Callbacks, msg: IncomingMessage): seq<Effect>
  {
    if ReadsNilValue(stack, msg) then [Panic]
    else match Translate(stack, cat, msg)
    case None => []
    case Some(m) => Forward(cbs, m)
  }

  /** Undecodable frames, commands of other kinds and read responses with a
      failed record produce no message; a report and a successful read
      response with the same identifiers and values produce the same
      message; the message comes from the sending node with its link quality. */
  lemma TranslateCases(stack: Stack, cat: ClusterCatalog, msg: IncomingMessage)
    ensures msg.applicationMessage !in stack.unmarshal ==> Translate(stack, cat, msg) == None
    ensures msg.applicationMessage in stack.unmarshal ==>
      var c := stack.unmarshal[msg.applicationMessage].command;
      (Translate(stack, cat, msg).Some? <==>
        c.ReportAttributes? || (c.ReadAttributesResponse? && AllRead(c.results))
        || c.DefaultResponse? || c.ZoneStatusChangeNotification?)
      && (c.ReportAttributes? ==>
            Translate(stack, cat, msg) == Some(AttributesMessage(cat, msg, c.records)))
      && (c.ReadAttributesResponse? && AllRead(c.results) ==>
            Translate(stack, cat, msg) == Some(AttributesMessage(cat, msg, ReadRecords(c.results))))
      && (c.DefaultResponse? ==>
            Translate(stack, cat, msg) == Some(DeviceMessage(msg.sourceAddress, msg.linkQuality,
              DefaultResponseReport(msg.applicationMessage.clusterId, c.commandIdentifier, c.status))))
    ensures Translate(stack, cat, msg).Some? ==>
      Translate(stack, cat, msg).value.ieeeAddress == msg.sourceAddress
      && Translate(stack, cat, msg).value.linkQuality == msg.linkQuality
  {
  }

  /** With the codec's pairing of status and value, a read response panics
      exactly when some record failed (an unsupported attribute, say), and
      then nothing else happens; otherwise the callback gets the values. */
  lemma FailedReadPanics(stack: Stack, cat: ClusterCatalog, cbs: Callbacks, msg: IncomingMessage)
    requires msg.applicationMessage in stack.unmarshal
    requires stack.unmarshal[msg.applicationMessage].command.ReadAttributesResponse?
    requires forall r :: r in stack.unmarshal[msg.applicationMessage].command.results ==>
      (r.value.Some? <==> r.status == STATUS_SUCCESS)
    ensures var results := stack.unmarshal[msg.applicationMessage].command.results;
      ((exists r :: r in results && r.status != STATUS_SUCCESS) <==> IncomingEffects(stack, cat, cbs, msg) == [Panic])
      && ((forall r :: r in results ==> r.status == STATUS_SUCCESS) ==>
            IncomingEffects(stack, cat, cbs, msg) == Forward(cbs, AttributesMessage(cat, msg, ReadRecords(results))))
  {
    var results := stack.unmarshal[msg.applicationMessage].command.results;
    if exists r :: r in results && r.status != STATUS_SUCCESS {
      var r :| r in results && r.status != STATUS_SUCCESS;
      var i :| 0 <= i < |results| && results[i] == r;
      assert ReadsNilValue(stack, msg);
    } else {
      forall i | 0 <= i < |results| ensures results[i].value.Some? {
        assert results[i] in results;
      }
    }
  }

  /** Reading attribute 5 of a cluster that lacks it: the response's one
      record has status UNSUPPORTED_ATTRIBUTE (0x86) and no value. */
  lemma UnsupportedAttributePanics(stack: Stack, cat: ClusterCatalog, cbs: Callbacks, msg: IncomingMessage)
    requires msg.applicationMessage in stack.unmarshal
    requires stack.unmarshal[msg.applicationMessage].command == ReadAttributesResponse([ReadRecord(5, 0x86, None)])
    ensures IncomingEffects(stack, cat, cbs, msg) == [Panic]
  {
    assert !AllRead([ReadRecord(5, 0x86, None)]) by {
      assert [ReadRecord(5, 0x86, None)][0].value.None?;
    }
    assert ReadsNilValue(stack, msg);
  }

  /** The cluster ID and name come from the schema: an unknown cluster gives
      0 and "", a known one its own entry. */
  lemma ReportNamesCluster(cat: ClusterCatalog, msg: IncomingMessage, records: seq<AttributeRecord>)
    ensures msg.applicationMessage.clusterId !in cat ==>
      AttributesMessage(cat, msg, records).message.clusterId == 0
      && AttributesMessage(cat, msg, records).message.clusterName == ""
    ensures msg.applicationMessage.clusterId in cat ==>
      AttributesMessage(cat, msg, records).message.clusterId == cat[msg.applicationMessage.clusterId].id
      && AttributesMessage(cat, msg, records).message.clusterName == cat[msg.applicationMessage.clusterId].name
  {
  }

  // ---------------------------------------------------------------------
  // Events.

  /** The registry after an event: every event but a leave saves its node. */
  function StoreAfter(store: Store, e: Event): Store
  {
    if e.NodeLeave? then store else Saved(store, DeviceOf(e.node))
  }

  function EventEffects(stack: Stack, cat: ClusterCatalog, cbs: Callbacks, e: Event): seq<Effect>
  {
    match e
    case NodeJoin(node) => if cbs.onJoin then [JoinOut(node)] else []
    case NodeLeave(node) => if cbs.onLeave then [LeaveOut(node)] else []
    case NodeUpdate(node) => if cbs.onUpdate then [UpdateOut(node)] else []
    case NodeIncomingMessage(_, msg) => IncomingEffects(stack, cat, cbs, msg)
  }

  /** A leave never touches the registry; the other events leave it valid
      and holding the node under its own address. */
  lemma EventsKeepRegistryValid(store: Store, e: Event)
    requires Valid(store)
    ensures Valid(StoreAfter(store, e))
    ensures e.NodeLeave? ==> StoreAfter(store, e) == store
    ensures !e.NodeLeave? ==> Lookup(StoreAfter(store, e), e.node.ieeeAddress) == (DeviceOf(e.node), None)
  {
    if !e.NodeLeave? {
      SavePreservesValid(store, DeviceOf(e.node));
      LookupAfterSave(store, DeviceOf(e.node));
    }
  }

  // ---------------------------------------------------------------------
  // The router.

  class ZigbeeRouter {
    const stack: Stack
    const catalog: ClusterCatalog
    const configuration: Configuration
    const database: DeviceDB
    var callbacks: Callbacks
    var effects: seq<Effect>

    constructor (stack: Stack, catalog: ClusterCatalog, configuration: Configuration, database: DeviceDB)
      ensures this.stack == stack && this.catalog == catalog
      ensures this.configuration == configuration && this.database == database
      ensures callbacks == NO_CALLBACKS && effects == []
    {
      this.stack := stack;
      this.catalog := catalog;
      this.configuration := configuration;
      this.database := database;
      callbacks := NO_CALLBACKS;
      effects := [];
    }

    method SubscribeOnDeviceMessage()
      modifies this
      ensures callbacks == old(callbacks).(onDeviceMessage := true) && effects == old(effects)
    {
      callbacks := callbacks.(onDeviceMessage := true);
    }

    method SubscribeOnDeviceDescription()
      modifies this
      ensures callbacks == old(callbacks).(onDescription := true) && effects == old(effects)
    {
      callbacks := callbacks.(onDescription := true);
    }

    method SubscribeOnDeviceJoin()
      modifies this
      ensures callbacks == old(callbacks).(onJoin := true) && effects == old(effects)
    {
      callbacks := callbacks.(onJoin := true);
    }

    method SubscribeOnDeviceLeave()
      modifies this
      ensures callbacks == old(callbacks).(onLeave := true) && effects == old(effects)
    {
      callbacks := callbacks.(onLeave := true);
    }

    method SubscribeOnDeviceUpdate()
      modifies this
      ensures callbacks == old(callbacks).(onUpdate := true) && effects == old(effects)
    {
      callbacks := callbacks.(onUpdate := true);
    }

    method ProccessSetDeviceConfigMessage(req: DeviceConfigSetMessage)
      modifies this
      ensures callbacks == old(callbacks)
      ensures effects == old(effects) + JoinPolicyCalls(configuration.permitJoin, req.permitJoin)
    {
      if req.permitJoin == configuration.permitJoin {
        return;
      }
      if req.permitJoin {
        effects := effects + [PermitJoinCall(true)];
      } else {
        effects := effects + [DenyJoinCall];
      }
    }

    /** A cluster list copied element by element into a list of its length. */
    method CopyClusterList(src: seq<U16>) returns (dst: seq<U16>)
      ensures |dst| == |src|
      ensures forall i :: 0 <= i < |src| ==> dst[i] == src[i]
    {
      var a := new U16[|src|];
      for i := 0 to |src|
        invariant forall j :: 0 <= j < i ==> a[j] == src[j]
      {
        a[i] := src[i];
      }
      dst := a[..];
    }

    /** The endpoint loop of ProccessGetDeviceDescriptionMessage. */
    method CollectEndpoints(address: U64, endpoints: seq<U8>) returns (out: seq<EndpointSummary>)
      ensures out == EndpointsOf(stack, address, endpoints)
    {
      out := [];
      for i := 0 to |endpoints|
        invariant out == EndpointsOf(stack, address, endpoints[..i])
      {
        assert endpoints[..i + 1][..i] == endpoints[..i];
        if (address, endpoints[i]) in stack.endpointDescriptions {
          var d := stack.endpointDescriptions[(address, endpoints[i])];
          var ins := CopyClusterList(d.inClusterList);
          var outs := CopyClusterList(d.outClusterList);
          assert ins == d.inClusterList && outs == d.outClusterList;
          out := out + [EndpointSummary(d.endpoint, d.profileId, d.deviceId, d.deviceVersion, ins, outs)];
        }
      }
      assert endpoints[..|endpoints|] == endpoints;
    }

    method ProccessGetDeviceDescriptionMessage(req: DeviceExploreMessage)
      modifies this
      ensures callbacks == old(callbacks)
      ensures effects == old(effects) + ExploreEffects(stack, callbacks, req.ieeeAddress)
    {
      var address := req.ieeeAddress;
      if address !in stack.nodeDescriptions {
        return;
      }
      var nd := stack.nodeDescriptions[address];
      if address !in stack.nodeEndpoints {
        return;
      }
      var endpoints := CollectEndpoints(address, stack.nodeEndpoints[address]);
      var ret := DeviceDescriptionMessage(address, nd.logicalType, nd.manufacturerCode, endpoints);
      if callbacks.onDescription {
        effects := effects + [DescriptionOut(ret)];
      } else {
        effects := effects + [NilCall];
      }
    }

    /** The attribute loop of ProccessGetMessageToDevice. */
    method CollectAttributeIds(attributes: seq<U16>) returns (ids: seq<U16>)
      ensures |ids| == |attributes|
      ensures forall i :: 0 <= i < |ids| ==> ids[i] == attributes[i]
    {
      ids := [];
      for i := 0 to |attributes|
        invariant ids == attributes[..i]
      {
        ids := ids + [attributes[i]];
      }
    }

    method ProccessGetMessageToDevice(req: DeviceGetMessage)
      modifies this
      ensures callbacks == old(callbacks)
      ensures effects == old(effects) + GetEffects(stack, req)
    {
      var ids := CollectAttributeIds(req.attributes);
      assert ids == req.attributes;
      var message := ZclMessage(FrameGlobal, ClientToServer, 1, NO_MANUFACTURER, req.clusterId, GATEWAY_ENDPOINT,
                                req.endpoint, READ_ATTRIBUTES_ID, ReadAttributes(ids));
      if message !in stack.marshal {
        return;
      }
      effects := effects + [Send(req.ieeeAddress, stack.marshal[message], false)];
    }

    method ProccessMessageToDevice(req: DeviceCommandMessage)
      requires SettableData(stack, req)
      modifies this
      ensures callbacks == old(callbacks)
      ensures effects == old(effects) + SendCommandEffects(stack, req)
    {
      var key := CommandKey(req.clusterId, NO_MANUFACTURER, ClientToServer, req.commandIdentifier);
      if key !in stack.localCommands {
        return;
      }
      var command := new Record(stack.localCommands[key]);
      command.SetStructProperties(Legacy, req.commandData);
      var message := LocalFrame(req, command.fields);
      if message !in stack.marshal {
        return;
      }
      effects := effects + [Send(req.ieeeAddress, stack.marshal[message], false)];
    }

    method SaveNodeDB(node: Node)
      modifies database
      ensures database.store == Saved(old(database.store), DeviceOf(node))
    {
      database.SaveDevice(DeviceOf(node));
    }

    /** The attribute loop of reports. */
    method CollectAttributes(def: ClusterDefinition, records: seq<AttributeRecord>) returns (attrs: map<string, DataValue>)
      ensures attrs == AttributeMap(def, records)
    {
      attrs := map[];
      for i := 0 to |records|
        invariant attrs == AttributeMap(def, records[..i])
      {
        assert records[..i + 1][..i] == records[..i];
        attrs := attrs[AttributeName(def, records[i].identifier) := records[i].value];
      }
      assert records[..|records|] == records;
    }

    method ProcessAttributes(msg: IncomingMessage, records: seq<AttributeRecord>)
      modifies this
      ensures callbacks == old(callbacks)
      ensures effects == old(effects) + Forward(callbacks, AttributesMessage(catalog, msg, records))
    {
      var def := GetById(catalog, msg.applicationMessage.clusterId);
      var attrs := CollectAttributes(def, records);
      var m := DeviceMessage(msg.sourceAddress, msg.linkQuality, AttributesReport(def.id, def.name, attrs));
      if callbacks.onDeviceMessage {
        effects := effects + [DeviceMessageOut(m)];
      }
    }

    /** The attribute loop of read responses: None where it reaches a
        record without a value, whose read panics. */
    method CollectReadAttributes(def: ClusterDefinition, results: seq<ReadRecord>)
      returns (attrs: Option<map<string, DataValue>>)
      ensures attrs.Some? <==> AllRead(results)
      ensures attrs.Some? ==> attrs.value == AttributeMap(def, ReadRecords(results))
    {
      var collected := map[];
      for i := 0 to |results|
        invariant AllRead(results[..i])
        invariant collected == AttributeMap(def, ReadRecords(results[..i]))
      {
        if results[i].value.None? {
          NotAllRead(results, i);
          return None;
        }
        ReadRecordsStep(results, i);
        AttributeMapStep(def, ReadRecords(results[..i]), AttributeRecord(results[i].identifier, results[i].value.value));
        collected := collected[AttributeName(def, results[i].identifier) := results[i].value.value];
      }
      assert results[..|results|] == results;
      return Some(collected);
    }

    /** processReadAttributesResponse: the report loop, except that a failed
        record has no value and reading it panics. */
    method ProcessReadResponse(msg: IncomingMessage, results: seq<ReadRecord>)
      modifies this
      ensures callbacks == old(callbacks)
      ensures effects == old(effects) +
        (if AllRead(results) then Forward(callbacks, AttributesMessage(catalog, msg, ReadRecords(results)))
         else [Panic])
    {
      var def := GetById(catalog, msg.applicationMessage.clusterId);
      var attrs := CollectReadAttributes(def, results);
      if attrs.None? {
        effects := effects + [Panic];
        return;
      }
      var m := DeviceMessage(msg.sourceAddress, msg.linkQuality, AttributesReport(def.id, def.name, attrs.value));
      if callbacks.onDeviceMessage {
        effects := effects + [DeviceMessageOut(m)];
      }
    }

    method ProcessIncomingMessage(node: Node, msg: IncomingMessage)
      modifies this, database
      ensures callbacks == old(callbacks)
      ensures database.store == Saved(old(database.store), DeviceOf(node))
      ensures effects == old(effects) + IncomingEffects(stack, catalog, callbacks, msg)
    {
      SaveNodeDB(node);
      if msg.applicationMessage !in stack.unmarshal {
        return;
      }
      var message := stack.unmarshal[msg.applicationMessage];
      match message.command
      case ReportAttributes(records) =>
        ProcessAttributes(msg, records);
      case ReadAttributesResponse(results) =>
        ProcessReadResponse(msg, results);
      case DefaultResponse(commandIdentifier, status) =>
        if callbacks.onDeviceMessage {
          effects := effects + [DeviceMessageOut(DefaultResponseMessage(msg, commandIdentifier, status))];
        }
      case ZoneStatusChangeNotification(change) =>
        var def := GetById(catalog, msg.applicationMessage.clusterId);
        if callbacks.onDeviceMessage {
          effects := effects + [DeviceMessageOut(DeviceMessage(msg.sourceAddress, msg.linkQuality,
                                                               ZoneStatusReport(def.id, def.name, change)))];
        }
      case _ =>
    }

    method ProcessNodeJoin(node: Node)
      modifies this, database
      ensures callbacks == old(callbacks)
      ensures database.store == Saved(old(database.store), DeviceOf(node))
      ensures effects == old(effects) + (if callbacks.onJoin then [JoinOut(node)] else [])
    {
      SaveNodeDB(node);
      if callbacks.onJoin {
        effects := effects + [JoinOut(node)];
      }
    }

    method ProcessNodeLeave(node: Node)
      modifies this
      ensures callbacks == old(callbacks)
      ensures effects == old(effects) + (if callbacks.onLeave then [LeaveOut(node)] else [])
    {
      if callbacks.onLeave {
        effects := effects + [LeaveOut(node)];
      }
    }

    method ProcessNodeUpdate(node: Node)
      modifies this, database
      ensures callbacks == old(callbacks)
      ensures database.store == Saved(old(database.store), DeviceOf(node))
      ensures effects == old(effects) + (if callbacks.onUpdate then [UpdateOut(node)] else [])
    {
      SaveNodeDB(node);
      if callbacks.onUpdate {
        effects := effects + [UpdateOut(node)];
      }
    }

    /** One turn of the event loop, run to completion. */
    method HandleEvent(e: Event)
      modifies this, database
      ensures callbacks == old(callbacks)
      ensures database.store == StoreAfter(old(database.store), e)
      ensures effects == old(effects) + EventEffects(stack, catalog, callbacks, e)
    {
      match e
      case NodeJoin(node) => ProcessNodeJoin(node);
      case NodeLeave(node) => ProcessNodeLeave(node);
      case NodeUpdate(node) => ProcessNodeUpdate(node);
      case NodeIncomingMessage(node, msg) => ProcessIncomingMessage(node, msg);
    }
  }

  // ---------------------------------------------------------------------
  // The earlier message service: a fixed Toggle payload and reports only.

  /** The onoff Toggle command struct has no fields. */
  function ToggleFrame(req: DeviceCommandMessage): ZclMessage
  {
    LocalFrame(req, map[])
  }

  function LegacySendEffects(stack: Stack, req: DeviceCommandMessage): seq<Effect>
  {
    if ToggleFrame(req) !in stack.marshal then []
    else [Send(req.ieeeAddress, stack.marshal[ToggleFrame(req)], true)]
  }

  /** Whatever CommandData holds, the same Toggle frame is sent. */
  lemma LegacySendIgnoresCommandData(stack: Stack, a: DeviceCommandMessage, b: DeviceCommandMessage)
    requires a.(commandData := b.commandData) == b
    ensures LegacySendEffects(stack, a) == LegacySendEffects(stack, b)
  {
    assert ToggleFrame(a) == ToggleFrame(b);
  }

  function LegacyReportOf(cat: ClusterCatalog, msg: IncomingMessage, records: seq<AttributeRecord>): LegacyReport
  {
    var def := GetById(cat, msg.applicationMessage.clusterId);
    LegacyReport(msg.sourceAddress, msg.linkQuality, def.id, def.name, AttributeMap(def, records))
  }

  /** The attribute reports the earlier code produces, if any: only Report
      Attributes frames are translated. */
  function LegacyTranslate(stack: Stack, cat: ClusterCatalog, msg: IncomingMessage): Option<LegacyReport>
  {
    if msg.applicationMessage !in stack.unmarshal then None
    else match stack.unmarshal[msg.applicationMessage].command
      case ReportAttributes(records) => Some(LegacyReportOf(cat, msg, records))
      case _ => None
  }

  /** The earlier service's effects for an incoming frame: a report, only
      to a registered callback. */
  function LegacyIncomingEffects(stack: Stack, cat: ClusterCatalog, subscribed: bool, msg: IncomingMessage): seq<Effect>
  {
    match LegacyTranslate(stack, cat, msg)
    case None => []
    case Some(r) => if subscribed then [ReportOut(r)] else []
  }

  /** The earlier report carries what the current router's report carries. */
  lemma LegacyReportAgrees(stack: Stack, cat: ClusterCatalog, msg: IncomingMessage)
    ensures LegacyTranslate(stack, cat, msg).Some? ==>
      var m := Translate(stack, cat, msg).value;
      var r := LegacyTranslate(stack, cat, msg).value;
      Translate(stack, cat, msg).Some?
      && r.ieeeAddress == m.ieeeAddress && r.linkQuality == m.linkQuality
      && r.clusterId == m.message.clusterId && r.clusterName == m.message.clusterName
      && r.attributes == m.message.attributes
    ensures LegacyTranslate(stack, cat, msg).Some? <==>
      msg.applicationMessage in stack.unmarshal && stack.unmarshal[msg.applicationMessage].command.ReportAttributes?
  {
  }

  class LegacyZigbeeService {
    const stack: Stack
    const catalog: ClusterCatalog
    const database: DeviceDB
    var onAttributesReport: bool
    var effects: seq<Effect>

    constructor (stack: Stack, catalog: ClusterCatalog, database: DeviceDB)
      ensures this.stack == stack && this.catalog == catalog && this.database == database
      ensures !onAttributesReport && effects == []
    {
      this.stack := stack;
      this.catalog := catalog;
      this.database := database;
      onAttributesReport := false;
      effects := [];
    }

    method SubscribeOnAttributesReport()
      modifies this
      ensures onAttributesReport && effects == old(effects)
    {
      onAttributesReport := true;
    }

    method ProccessMessageToDevice(req: DeviceCommandMessage)
      modifies this
      ensures onAttributesReport == old(onAttributesReport)
      ensures effects == old(effects) + LegacySendEffects(stack, req)
    {
      var message := LocalFrame(req, map[]);
      if message !in stack.marshal {
        return;
      }
      effects := effects + [Send(req.ieeeAddress, stack.marshal[message], true)];
    }

    method CollectAttributes(def: ClusterDefinition, records: seq<AttributeRecord>) returns (attrs: map<string, DataValue>)
      ensures attrs == AttributeMap(def, records)
    {
      attrs := map[];
      var i := 0;
      while i < |records|
        invariant 0 <= i <= |records|
        invariant attrs == AttributeMap(def, records[..i])
      {
        assert records[..i + 1][..i] == records[..i];
        attrs := attrs[AttributeName(def, records[i].identifier) := records[i].value];
        i := i + 1;
      }
      assert records[..|records|] == records;
    }

    method ProcessIncomingMessage(node: Node, msg: IncomingMessage)
      modifies this, database
      ensures onAttributesReport == old(onAttributesReport)
      ensures database.store == Saved(old(database.store), DeviceOf(node))
      ensures effects == old(effects) + LegacyIncomingEffects(stack, catalog, onAttributesReport, msg)
    {
      database.SaveDevice(DeviceOf(node));
      if msg.applicationMessage !in stack.unmarshal {
        return;
      }
      match stack.unmarshal[msg.applicationMessage].command
      case ReportAttributes(records) =>
        var def := GetById(catalog, msg.applicationMessage.clusterId);
        var attrs := CollectAttributes(def, records);
        if onAttributesReport {
          effects := effects + [ReportOut(LegacyReport(msg.sourceAddress, msg.linkQuality, def.id, def.name, attrs))];
        }
      case _ =>
    }

    /** Joins and updates save the node, leaves are only logged, messages
        save their sender and may produce a report. */
    method HandleEvent(e: Event)
      modifies this, database
      ensures onAttributesReport == old(onAttributesReport)
      ensures database.store == StoreAfter(old(database.store), e)
      ensures effects == old(effects) +
        (if e.NodeIncomingMessage? then LegacyIncomingEffects(stack, catalog, onAttributesReport, e.message) else [])
    {
      match e
      case NodeJoin(node) => database.SaveDevice(DeviceOf(node));
      case NodeLeave(_) =>
      case NodeUpdate(node) => database.SaveDevice(DeviceOf(node));
      case NodeIncomingMessage(node, msg) => ProcessIncomingMessage(node, msg);
    }
  }

  // ---------------------------------------------------------------------
  // The earlier handlers: reports published on "<topic>/<decimal address>".

  /** The marshal error is discarded, so a failed encoding publishes nil. */
  function LegacyPublishEffects(stack: Stack, cat: ClusterCatalog, json: Json, topic: string, msg: IncomingMessage): seq<Effect>
  {
    match LegacyTranslate(stack, cat, msg)
    case None => []
    case Some(r) =>
      var p := LegacyReportPayload(r);
      [Publish(topic + "/" + FormatDecimal(r.ieeeAddress), if p in json.encode then json.encode[p] else [])]
  }

  /** Every translated report is published exactly once, on the sender's
      decimal topic; nothing else is. */
  lemma LegacyPublishesEveryReport(stack: Stack, cat: ClusterCatalog, json: Json, topic: string, msg: IncomingMessage)
    ensures |LegacyPublishEffects(stack, cat, json, topic, msg)| == (if LegacyTranslate(stack, cat, msg).Some? then 1 else 0)
    ensures forall e :: e in LegacyPublishEffects(stack, cat, json, topic, msg) ==>
      e.Publish? && e.topic == topic + "/" + FormatDecimal(msg.sourceAddress)
  {
  }

  class ReportHandler {
    const stack: Stack
    const catalog: ClusterCatalog
    const json: Json
    const topic: string
    const database: DeviceDB
    var effects: seq<Effect>

    constructor (stack: Stack, catalog: ClusterCatalog, json: Json, topic: string, database: DeviceDB)
      ensures this.stack == stack && this.catalog == catalog && this.json == json
      ensures this.topic == topic && this.database == database && effects == []
    {
      this.stack := stack;
      this.catalog := catalog;
      this.json := json;
      this.topic := topic;
      this.database := database;
      effects := [];
    }

    /** The message handler: translate and publish. */
    method ProcessIncomingMessage(msg: IncomingMessage)
      modifies this
      ensures effects == old(effects) + LegacyPublishEffects(stack, catalog, json, topic, msg)
    {
      if msg.applicationMessage !in stack.unmarshal {
        return;
      }
      match stack.unmarshal[msg.applicationMessage].command
      case ReportAttributes(records) =>
        var def := GetById(catalog, msg.applicationMessage.clusterId);
        var attrs := map[];
        for i := 0 to |records|
          invariant attrs == AttributeMap(def, records[..i])
        {
          assert records[..i + 1][..i] == records[..i];
          attrs := attrs[AttributeName(def, records[i].identifier) := records[i].value];
        }
        assert records[..|records|] == records;
        var report := LegacyReport(msg.sourceAddress, msg.linkQuality, def.id, def.name, attrs);
        var p := LegacyReportPayload(report);
        var data := if p in json.encode then json.encode[p] else [];
        effects := effects + [Publish(topic + "/" + FormatDecimal(msg.sourceAddress), data)];
      case _ =>
    }

    /** The event handler: save the sender first, then as above. */
    method ProcessIncomingEvent(node: Node, msg: IncomingMessage)
      modifies this, database
      ensures database.store == Saved(old(database.store), DeviceOf(node))
      ensures effects == old(effects) + LegacyPublishEffects(stack, catalog, json, topic, msg)
    {
      database.SaveDevice(DeviceOf(node));
      ProcessIncomingMessage(msg);
    }

    /** One turn of the event loop: joins and updates save the node, a leave
        is only logged, a message saves its sender and is published. */
    method HandleEvent(e: Event)
      modifies this, database
      ensures database.store == StoreAfter(old(database.store), e)
      ensures effects == old(effects) +
        (if e.NodeIncomingMessage? then LegacyPublishEffects(stack, catalog, json, topic, e.message) else [])
    {
      match e
      case NodeJoin(node) => database.SaveDevice(DeviceOf(node));
      case NodeLeave(_) =>
      case NodeUpdate(node) => database.SaveDevice(DeviceOf(node));
      case NodeIncomingMessage(node, msg) => ProcessIncomingEvent(node, msg);
    }
  }
}
