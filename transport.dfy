/** The radio side as the gateway sees it: Zigbee nodes and events, decoded
    ZCL frames (general commands of sections 2.5.1, 2.5.2, 2.5.11 and 2.5.12
    of the Zigbee Cluster Library specification, 07-5123), and the
    collaborators the routers call -- the network co-processor's queries and
    the ZCL codec -- as partial maps that either answer or fail. */
module Zigbee {
  import opened Common
  import opened FieldSetter

  /** zigbee.Node: what the stack knows about a joined device. */
  datatype Node = Node(
    ieeeAddress: U64,
    networkAddress: U16,
    logicalType: U8,
    lqi: U8,
    depth: U8,
    lastDiscovered: nat,
    lastReceived: nat)

  /** An attribute value with its ZCL data type; the payload stands for the
      decoded Go value, which the gateway passes through untouched. */
  datatype DataValue = DataValue(dataType: U8, payload: seq<U8>)

  /** One record of a Report Attributes frame (section 2.5.11), which always
      carries a value. */
  datatype AttributeRecord = AttributeRecord(identifier: U16, value: DataValue)

  /** The ZCL status SUCCESS. */
  const STATUS_SUCCESS: U8 := 0x00

  /** One record of a Read Attributes Response (section 2.5.2): the value is
      present only when the status is SUCCESS; None is the nil DataTypeValue
      the codec leaves in a failed record. */
  datatype ReadRecord = ReadRecord(identifier: U16, status: U8, value: Option<DataValue>)

  /** The payload of an IAS Zone "zone status change notification". */
  datatype ZoneStatusChange = ZoneStatusChange(zoneStatus: U16, extendedStatus: U8, zoneId: U8, delay: U16)

  /** The decoded command of a ZCL frame. Local(fields) is a cluster-specific
      command struct, field by field; Other is any command the gateway does
      not handle. */
  datatype Command =
    | ReadAttributes(identifiers: seq<U16>)
    | ReadAttributesResponse(results: seq<ReadRecord>)
    | ReportAttributes(records: seq<AttributeRecord>)
    | DefaultResponse(commandIdentifier: U8, status: U8)
    | ZoneStatusChangeNotification(change: ZoneStatusChange)
    | Local(fields: map<string, Field>)
    | Other(commandIdentifier: U8)

  datatype FrameType = FrameGlobal | FrameLocal
  datatype Direction = ClientToServer | ServerToClient

  const NO_MANUFACTURER: U16 := 0
  /** The general command identifier of Read Attributes. */
  const READ_ATTRIBUTES_ID: U8 := 0x00
  /** The endpoint the gateway sends from. */
  const GATEWAY_ENDPOINT: U8 := 0x01

  /** zcl.Message: the frame header fields and the command. */
  datatype ZclMessage = ZclMessage(
    frameType: FrameType,
    direction: Direction,
    transactionSequence: U8,
    manufacturer: U16,
    clusterId: U16,
    sourceEndpoint: U8,
    destinationEndpoint: U8,
    commandIdentifier: U8,
    command: Command)

  /** The encoded frame as it travels in an APS data message. */
  datatype ApplicationMessage = ApplicationMessage(clusterId: U16, sourceEndpoint: U8, destinationEndpoint: U8, data: seq<U8>)

  datatype IncomingMessage = IncomingMessage(sourceAddress: U64, linkQuality: U8, applicationMessage: ApplicationMessage)

  datatype Event =
    | NodeJoin(node: Node)
    | NodeLeave(node: Node)
    | NodeUpdate(node: Node)
    | NodeIncomingMessage(node: Node, message: IncomingMessage)

  datatype NodeDescription = NodeDescription(logicalType: U8, manufacturerCode: U16)

  datatype EndpointDescription = EndpointDescription(
    endpoint: U8,
    profileId: U16,
    deviceId: U16,
    deviceVersion: U8,
    inClusterList: seq<U16>,
    outClusterList: seq<U16>)

  /** The key GetLocalCommand looks a command struct up by. */
  datatype CommandKey = CommandKey(clusterId: U16, manufacturer: U16, direction: Direction, commandIdentifier: U8)

  /** The stack and the codec: each query or conversion answers for the keys
      of its map and fails for every other argument. */
  datatype Stack = Stack(
    nodeDescriptions: map<U64, NodeDescription>,
    nodeEndpoints: map<U64, seq<U8>>,
    endpointDescriptions: map<(U64, U8), EndpointDescription>,
    localCommands: map<CommandKey, map<string, Field>>,
    marshal: map<ZclMessage, seq<U8>>,
    unmarshal: map<ApplicationMessage, ZclMessage>)
}
