/** The records the gateway exchanges over the bus: decoded request bodies,
    the requests handed to the radio side, the messages published back, and
    the JSON codec as partial maps (a body decodes only if it is a key, a
    payload encodes only if it is a key). */
module Messages {
  import opened Common
  import opened FieldSetter
  import opened Zigbee
  import Registry

  // ---------------------------------------------------------------------
  // Inbound bodies.

  datatype SetGatewayConfig = SetGatewayConfig(permitJoin: bool)

  /** CommandData holds the JSON object's members, to be copied field by field. */
  datatype DeviceSetBody = DeviceSetBody(clusterId: U16, endpoint: U8, commandIdentifier: U8, commandData: map<string, Source>)

  datatype DeviceGetBody = DeviceGetBody(clusterId: U16, endpoint: U8, attributes: seq<U16>)

  // ---------------------------------------------------------------------
  // Requests passed from the bus side to the radio side.

  datatype DeviceCommandMessage = DeviceCommandMessage(
    ieeeAddress: U64,
    clusterId: U16,
    endpoint: U8,
    commandIdentifier: U8,
    commandData: map<string, Source>)

  datatype DeviceGetMessage = DeviceGetMessage(ieeeAddress: U64, clusterId: U16, endpoint: U8, attributes: seq<U16>)

  datatype DeviceExploreMessage = DeviceExploreMessage(ieeeAddress: U64)

  datatype DeviceConfigSetMessage = DeviceConfigSetMessage(permitJoin: bool)

  // ---------------------------------------------------------------------
  // Outbound messages.

  /** The Message member of a DeviceMessage. */
  datatype DeviceMessageBody =
    | AttributesReport(clusterId: U16, clusterName: string, attributes: map<string, DataValue>)
    | ZoneStatusReport(clusterId: U16, clusterName: string, change: ZoneStatusChange)
    | DefaultResponseReport(clusterId: U16, commandIdentifier: U8, status: U8)

  datatype DeviceMessage = DeviceMessage(ieeeAddress: U64, linkQuality: U8, message: DeviceMessageBody)

  datatype EndpointSummary = EndpointSummary(
    endpoint: U8,
    profileId: U16,
    deviceId: U16,
    deviceVersion: U8,
    inClusterList: seq<U16>,
    outClusterList: seq<U16>)

  datatype DeviceDescriptionMessage = DeviceDescriptionMessage(
    ieeeAddress: U64,
    logicalType: U8,
    manufacturerCode: U16,
    endpoints: seq<EndpointSummary>)

  /** The report shape of the earlier services and handlers. */
  datatype LegacyReport = LegacyReport(
    ieeeAddress: U64,
    linkQuality: U8,
    clusterId: U16,
    clusterName: string,
    attributes: map<string, DataValue>)

  /** The part of the gateway configuration the routers read. */
  datatype Configuration = Configuration(permitJoin: bool, rootTopic: string)

  /** Anything the gateway marshals to JSON before publishing. */
  datatype Payload =
    | DeviceMessagePayload(deviceMessage: DeviceMessage)
    | DescriptionPayload(description: DeviceDescriptionMessage)
    | NodePayload(node: Node)
    | DevicesPayload(devices: seq<Registry.Device>)
    | ConfigPayload(config: Configuration)
    | LegacyReportPayload(report: LegacyReport)

  /** json.Marshal and json.Unmarshal into each body type. */
  datatype Json = Json(
    encode: map<Payload, seq<U8>>,
    configBodies: map<seq<U8>, SetGatewayConfig>,
    getBodies: map<seq<U8>, DeviceGetBody>,
    setBodies: map<seq<U8>, DeviceSetBody>)
}
