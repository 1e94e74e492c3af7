# gigbee2mqtt core in Dafny

This project models the core of the gigbee2mqtt gateway, which sits between a
Zigbee network and an MQTT broker. It holds the following parts:

- **Bus-side topic router** (`bus_router.dfy`, `topics.dfy`). It splits an
  inbound topic on "/", the topic-level separator of section 4.7.1.1 of
  MQTT 3.1.1. It tells gateway commands apart from device commands, strips
  "0x" and parses a base-16 uint64 address the way Go's
  `strconv.ParseUint(s, 16, 64)` does. It dispatches to at most one
  registered callback and formats outbound topics. The earlier message
  service, which has no gateway branch and publishes on decimal topics, is
  modelled beside it.
- **Radio-side router** (`radio_router.dfy`, `transport.dfy`, `messages.dfy`).
  It decides permit-join and assembles the explore result from the stack's
  queries. It builds the Read Attributes request (section 2.5.1 of the Zigbee
  Cluster Library specification, 07-5123) and the cluster-specific command
  frame. It turns Read Attributes Responses (2.5.2), Report Attributes
  (2.5.11), Default Responses (2.5.12) and IAS Zone status changes into
  device messages; a read response with a failed record makes it panic. It
  also saves nodes in the registry. The earlier service
  and the two earlier handlers are modelled as well. They forward attribute
  reports only.
- **Dynamic field setter** (`field_setter.dfy`). It copies a name-to-value map
  onto a command record the way the reflection-based `SetStructProperties`
  does, including the truncation to the field width done by
  `reflect.Value.SetInt` and `SetUint`. Both setters are modelled: the
  current one and the earlier, integer-only one.
- **Schema catalog** (`catalog.dfy`). It re-keys the name-keyed JSON cluster
  tables by numeric ID and looks clusters up by ID. The current loader and
  the two earlier loaders are modelled. The earlier loaders ignore decode
  errors.
- **Device registry** (`registry.dfy`, `little_endian.dfy`). It is an ordered
  store keyed by the 8-byte little-endian encoding of the IEEE address. It
  supports upsert, delete, lookup and listing in key-byte order. `Btoi64`
  decodes eight little-endian bytes.

Collaborators are modelled as partial maps: a call succeeds exactly for the
keys of its map. There are four of them:

- the ZCL codec (Marshal, Unmarshal, GetLocalCommand);
- the network co-processor's queries;
- `encoding/json`;
- the gob-encoded store values.

The handlers are classes. Each keeps its registered callbacks in a field and
appends what it does to an `effects` sequence: publishes, sends, stack calls
and callback invocations. Each handler is proved against a specification
function of its inputs and the old state. Go's map iteration order is a
nondeterministic choice, so each contract holds for every order. Where the
order matters (colliding IDs in the schema tables), the contract leaves open
which entry survives.

## Model

| member | source | states |
|---|---|---|
| LittleEndian.Btoi64 | utils/utils.go:13-19 | The result is the little-endian value of the first eight bytes. Bytes past index 7 are never read. Fewer than eight bytes is out of contract, because the Go code panics on the index. The copy of the loop in geegbee2mqtt.go:131-137 gives the same value. |
| LittleEndian.Btoi64Step | utils/utils.go:16 | Or-ing the next byte, shifted into its own 8-bit lane, into the lower lanes adds it. |
| LittleEndian.DisjointOrIsAdd | utils/utils.go:16 | A bitwise or of a value below 2^k with a multiple of 2^k equals their sum. |
| LittleEndian.ShiftNeverWraps | geegbee2mqtt.go:134 | A byte shifted left by 8·i, for i < 8, stays below 2^64. So the 64-bit shift equals multiplication by 256^i. |
| LittleEndian.ExtendedPanIdValue | geegbee2mqtt.go:51 | Eight bytes of 221 decode to 0xDDDDDDDDDDDDDDDD, the configured Extended PAN ID. |
| LittleEndian.Btoi64InvertsPutUint64 | utils/utils.go:13-19 | Decoding the first eight bytes of a registry key, with or without trailing bytes, gives back the encoded address. |
| LittleEndian.LeValueOfLeBytes | internal/db/db.go:78-79 | Encoding x in n little-endian bytes and decoding gives x mod 256^n. |
| LittleEndian.LeBytesOfLeValue | internal/db/db.go:48 | Decoding a byte string and re-encoding it in the same length gives the byte string back. |
| LittleEndian.KeyRoundTrip | internal/db/db.go:78-79 | `Uint64(PutUint64(x)) == x` for every uint64: the listing decodes the saved address. |
| LittleEndian.KeyRoundTripBytes | internal/db/db.go:48 | Every 8-byte key is the encoding of the address it decodes to. |
| LittleEndian.PutUint64Injective | db/db.go:57-58 | Distinct addresses get distinct keys. |
| Registry.DeviceDB.SaveDevice | internal/db/db.go:77-101 | The store becomes the old store with the record stored under the key of its own address. In db/db.go:56-72, the earlier store's synchronous Set overwrites the key in the same way. |
| Registry.DeviceDB.DeleteDevice | internal/db/db.go:103-120 | The store becomes the old store without the address's key. A missing key is not an error. In db/db.go:74-84, the earlier delete removes the key the same way, without checking that it exists. |
| Registry.DeviceDB.GetDevice | internal/db/db.go:122-155 | The result is `Lookup` of the store at the address: the stored record, or the zero Device with an error. |
| Registry.Lookup | internal/db/db.go:122-155 | No error exactly when the key is present and decodes. Then the result is the stored record. Otherwise it is the zero Device, and a missing key gives NotFound. In internal/db/db_test.go:91-109, an address never saved has no key, so the lookup returns NotFound and the zero Device. |
| Registry.DeviceDB.GetDevices | internal/db/db.go:38-75 | The result is the listing of the store: devices in key-byte order, or failure if any value does not decode. In db/db.go:34-54, the earlier listing iterates in the same order and aborts the same way on a decode error. |
| Registry.ListedDevice | internal/db/db.go:47-52 | Decoding a record over a Device that already holds the key's address keeps the record. A zero stored address is the only case where the key's address shows through. |
| Registry.SortedKeysSpec | internal/db/db.go:44 | The iteration order lists every key once and nothing else, strictly increasing in byte order. |
| Registry.KeyLessTotal | internal/db/db.go:44 | Byte order is total on distinct keys of equal length. |
| Registry.KeyLessTransitive | internal/db/db.go:44 | Byte order is transitive. |
| Registry.CollectSpec | internal/db/db.go:44-65 | The iterator loop fails exactly when some visited value does not decode. Otherwise it lists one device per visited key, in order. |
| Registry.CollectFailedSticks | internal/db/db.go:62-72 | Once a decode error has occurred, the rest of the loop cannot produce a list. The result is nil, never a partial list. |
| Registry.ListingFailsIff | internal/db/db.go:51-72 | GetDevices fails exactly when some stored value does not decode. |
| Registry.ListingEntries | internal/db/db.go:44-57 | For a valid store that lists, the i-th device is the record under the i-th key in byte order. |
| Registry.ListingOfValid | internal/db/db.go:44-57 | A valid store lists each stored record exactly once, and as many devices as keys. |
| Registry.SavePreservesValid | internal/db/db.go:77-94 | Saving keeps every record under the key of its own address. |
| Registry.SaveIsUpsert | internal/db/db.go:88-94 | Two saves for one address leave one entry, holding the second record. The store grows only when the address was new. |
| Registry.LookupAfterSave | internal/db/db_test.go:79-88 | After a save, a lookup of the saved address returns that record without error. |
| Registry.SaveKeepsOthers | internal/db/db.go:88-94 | A save changes no other address's lookup. |
| Registry.DeleteRemovesOnly | internal/db/db.go:103-120 | After a delete the address is NotFound and other addresses are unchanged. The store shrinks by one exactly when the key was present. |
| Registry.TestKeys | internal/db/db.go:78-79 | The keys of 12345 and 99999 are their little-endian bytes. |
| Registry.TestSortedKeys | internal/db/db_test.go:34-45 | After saving 12345 and 99999, the key of 12345 comes first. |
| Registry.TestListingOrder | internal/db/db_test.go:40-45 | Listing after the two saves gives two devices, 12345 then 99999. In db/db_test.go:37-42, the earlier store's test sees the same two devices in the same order. |
| Registry.TestDeleteLeavesOne | internal/db/db_test.go:47-53 | Deleting 12345 afterwards leaves a listing of exactly one device, 99999. |
| Registry.KeyOrderIsNotNumeric | internal/db/db.go:44 | Key-byte order is not numeric order: the key of 256 sorts before the key of 1. |
| Catalog.Rekey | internal/zcldef/json.go:39-56 | The output keys are exactly the IDs of the input entries. Each output entry is an input entry with its Name set to its JSON key, other fields unchanged. |
| Catalog.RekeyNoLarger | internal/zcldef/json.go:39-44 | When IDs collide only one entry survives, so the output is no larger than the input. |
| Catalog.RekeyKeepsEveryId | internal/zcldef/json.go:39-56 | Every input ID is an output key. With distinct IDs, output and input have the same size. |
| Catalog.RekeyEmpty | internal/zcldef/json.go:39-51 | A cluster without attributes, commands or responses gets fresh empty maps. |
| Catalog.BuildCatalog | internal/zcldef/json.go:34-67 | Each cluster is stored under its numeric ID, with its JSON key as Name and its three tables re-keyed. Every output key comes from an input cluster. |
| Catalog.CatalogKeepsEveryCluster | internal/zcldef/json.go:36-65 | Every JSON cluster's ID is a catalog key, and each entry carries its own key as ID. The catalog is no larger than the table. |
| Catalog.LoadFromFile | internal/zcldef/json.go:18-68 | A missing file gives nil. With decode errors checked, a decode error gives nil. Otherwise the result is the re-keyed catalog of what was decoded. In zcldef/json.go:17-62, the earlier loader ignores decode errors. Only a missing file gives nil. In zcldef/zcldef.go:45-90, `Load` ignores read and decode errors the same way and re-keys what was decoded. |
| Catalog.IgnoredErrorYieldsEmptyCatalog | zcldef/zcldef.go:53-56 | A file that decodes to nothing still yields a non-nil, empty catalog. |
| Catalog.New | internal/zcldef/zcldef.go:19-28 | The process stops exactly when the file is missing or does not decode. Otherwise the service holds the re-keyed catalog. |
| Catalog.UnknownClusterIsBlank | internal/zcldef/zcldef.go:15-17 | An unknown cluster ID yields the zero descriptor, with ID 0 and Name "", and every attribute lookup in it yields "". |
| Catalog.LookupNamesAttributes | internal/zcldef/zcldef.go:15-17 | For a loaded catalog, a known attribute's name is the JSON key of an entry with that ID, in the JSON cluster with that ID. |
| FieldSetter.SignedWrap | internal/utils/reflector.go:8-33 | The value stored in a signed field lies in the field's range and is congruent to the source modulo 2^width. This is two's-complement truncation. |
| FieldSetter.Applied | internal/utils/reflector.go:147-151 | The record keeps its field names, and a field no key names is unchanged. |
| FieldSetter.Record.SetStructPropertyByName | internal/utils/reflector.go:107-145 | A name that is not a field leaves the record unchanged. Otherwise only that field is rewritten by the setter for its kind. |
| FieldSetter.Record.SetStructProperties | internal/utils/reflector.go:147-151 | Whatever order the loop visits the keys in, the record ends as `Applied` of the map. In utils/reflector.go:98-102, the earlier loop, with the Legacy variant, ends the same way. |
| FieldSetter.OnlyNamedExportedFieldsChange | internal/utils/reflector.go:107-113 | A field that changes is named exactly by a key and is exported. |
| FieldSetter.SignedWrapIdentity | internal/utils/reflector.go:10-17 | A source value already in the field's range is stored unchanged. |
| FieldSetter.SignedWrapCongruent | internal/utils/reflector.go:18-27 | Truncation depends only on the value modulo the width. |
| FieldSetter.SignedStoreIsWrap | internal/utils/reflector.go:18-27 | Converting an unsigned source to int64 first, then to the field width, equals truncating straight to the width. |
| FieldSetter.IntegerFieldSemantics | internal/utils/reflector.go:35-62 | An unsigned field stores the magnitude modulo 2^width. A signed field stores the two's-complement truncation, except that an int64 source leaves it unchanged. |
| FieldSetter.SetFieldWellTyped | internal/utils/reflector.go:107-145 | After every write the field still holds a value of its kind. |
| FieldSetter.NonNumericSourceKeepsNumbers | internal/utils/reflector.go:8-91 | A bool or string source never changes an integer or float field. |
| FieldSetter.BoolAndStringNeedTheirType | internal/utils/reflector.go:93-105 | A bool field changes only for a bool source and a string field only for a string source, and only in the current setter. |
| FieldSetter.LegacyWritesOnlyIntegers | utils/reflector.go:71-92 | The earlier setter never changes a bool, string, float or other non-integer field. |
| FieldSetter.VariantsAgreeOnIntegers | utils/reflector.go:8-62 | On integer fields the earlier and the current setter store the same value. |
| FieldSetter.UnsignedTruncationExamples | internal/utils/reflector.go:37-38 | -5 into a uint16 is 5, and -300 into a uint8 is 44. |
| FieldSetter.Uint64WrapsIntoInt64 | internal/utils/reflector.go:26-27 | The uint64 2^63 into an int64 field is -2^63. |
| FieldSetter.SignedTruncationExamples | internal/utils/reflector.go:8-33 | 200 into an int8 is -56. An int64 source leaves an int32 field unchanged. |
| FieldSetter.AppliedSplits | internal/utils/reflector.go:147-151 | Applying two disjoint maps in either order equals applying their union. So the result does not depend on map iteration order. |
| Topics.Split | router/mqttRouter.go:88 | Splitting gives at least one segment, and no segment contains "/". |
| Topics.JoinSplit | router/mqttRouter.go:88 | Joining the segments with "/" gives the topic back. |
| Topics.SplitJoin | router/mqttRouter.go:88 | Separator-free segments are exactly what splitting their join gives back. |
| Topics.SplitThree | router/mqttRouter.go:88-99 | "a/b/c" with separator-free a, b and c splits into exactly [a, b, c]. |
| Topics.StripHexPrefixes | router/mqttRouter.go:169 | Removing "0x" never lengthens the string and introduces no character. |
| Topics.StripWithoutX | router/mqttRouter.go:169 | A string without an "x" is left unchanged. |
| Topics.StripLeadingMarker | router/mqttRouter.go:169 | "0x" followed by a string without an "x" gives that string. |
| Topics.StripIsNotIdempotent | router/mqttRouter.go:169 | One left-to-right pass can leave a "0x" behind: "00xx" becomes "0x". |
| Topics.ParseAllHex | router/mqttRouter.go:169 | A non-empty hex string parses to its value. If the value does not fit, the result is 2^64-1 with a range error. |
| Topics.ParseBadDigit | router/mqttRouter.go:169 | At the first non-hex character the parse stops with 0 and a syntax error, unless the digits before it have already overflowed. |
| Topics.ParseSucceedsIff | router/mqttRouter.go:169-172 | The parse has no error exactly when the string is non-empty, all hex, and its value is below 2^64. |
| Topics.FirstNonDigit | router/mqttRouter.go:169 | Any string with a non-hex character has a first one, preceded only by hex digits. |
| Topics.Format | router/mqttRouter.go:63 | The output is non-empty, lowercase digits of the base, with a leading "0" only for zero. |
| Topics.FormatValue | router/mqttRouter.go:63 | Reading back the formatted digits gives the number. |
| Topics.FormatOfCanonical | router/mqttRouter.go:63 | Every lowercase digit string without a leading zero is what formatting its value writes. So formatting is a bijection onto such strings. |
| Topics.ParseFormatHex | router/mqttRouter.go:63 | Every uint64 formatted in hex parses back to itself without error. |
| Topics.FormatHasNoX | router/mqttRouter.go:63-66 | Formatted digits contain neither "x" nor "/". |
| BusRouter.MqttRouter.MqttMessage | router/mqttRouter.go:87-100 | The effects grow by `Inbound` of the topic, the body, the subscribers and the registry's current listing. |
| BusRouter.MqttRouter.HandleGatewayMessage | router/mqttRouter.go:102-115 | The effects grow by the gateway command's effects. |
| BusRouter.MqttRouter.PublishConfig | router/mqttRouter.go:117-125 | It publishes the encoded configuration on "gateway/config", or nothing if marshalling fails. |
| BusRouter.MqttRouter.HandleSetConfig | router/mqttRouter.go:127-149 | The effects grow by the set-config effects: one config callback with the decoded PermitJoin, or nothing. |
| BusRouter.MqttRouter.PublishDevicesList | router/mqttRouter.go:151-165 | It publishes the encoded registry listing on "gateway/devices". It publishes nothing if listing or marshalling fails. |
| BusRouter.MqttRouter.HandleDeviceMessage | router/mqttRouter.go:167-188 | The effects grow by the device verb's effects, with the address parsed from the segment. |
| BusRouter.MqttRouter.HandleDeviceExploreCommand | router/mqttRouter.go:190-198 | Guarded by the get subscriber, it calls the explore subscriber. If that subscriber is missing, it calls nil. |
| BusRouter.MqttRouter.HandleDeviceGetCommand | router/mqttRouter.go:200-218 | A body that decodes reaches a registered get callback with the address, cluster, endpoint and attribute list. |
| BusRouter.MqttRouter.HandleDeviceSetCommand | router/mqttRouter.go:220-240 | A body that decodes reaches a registered set callback with the address, cluster, endpoint, command and CommandData. |
| BusRouter.MqttRouter.PublishDeviceMessage | router/mqttRouter.go:56-69 | It publishes on the device topic, or nothing if marshalling fails. |
| BusRouter.MqttRouter.SubscribeOnSetMessage | router/mqttRouter.go:71-73 | Registers the set callback and changes nothing else. |
| BusRouter.MqttRouter.SubscribeOnGetMessage | router/mqttRouter.go:75-77 | Registers the get callback and changes nothing else. |
| BusRouter.MqttRouter.SubscribeOnExploreMessage | router/mqttRouter.go:79-81 | Registers the explore callback and changes nothing else. |
| BusRouter.MqttRouter.SubscribeOnSetDeviceConfigMessage | router/mqttRouter.go:83-85 | Registers the config callback and changes nothing else. |
| BusRouter.DeviceTopicRoundTrip | router/mqttRouter.go:63-66 | The device topic splits into the address segment and the subtopic, if there is one. The address segment parses back to the address. |
| BusRouter.ShortTopicIsDropped | router/mqttRouter.go:88-92 | A topic with fewer than three segments has no effect. |
| BusRouter.AtMostOneEffect | router/mqttRouter.go:87-188 | One inbound message causes at most one publish or callback. |
| BusRouter.OnlySegmentsOneAndTwoMatter | router/mqttRouter.go:94-99 | Two topics that agree on segments 1 and 2 have the same effects. The root segment and later segments are never read. |
| BusRouter.GatewayCommands | router/mqttRouter.go:102-115 | Only exact "get_devices", "get_config" and "set_config" do anything. The first two publish on "gateway/devices" and "gateway/config". |
| BusRouter.SetConfigCallsBack | router/mqttRouter.go:127-149 | set_config has an effect exactly when the body decodes and a config callback is registered. The effect is one call with the decoded PermitJoin. |
| BusRouter.DeviceVerbs | router/mqttRouter.go:174-187 | Verbs other than get, set and explore do nothing. A get or set body that does not decode is dropped. A decoded one reaches its callback with the parsed address and the decoded fields. |
| BusRouter.ExploreGuardedByGetSubscriber | router/mqttRouter.go:193-194 | Explore does nothing without a get subscriber. With one, it calls the explore callback, or nil if that is missing. |
| BusRouter.AddressParsing | router/mqttRouter.go:169-172 | A fitting hex segment gives its value, overflow gives 2^64-1 and an empty segment gives 0. Dispatch goes on in every case. |
| BusRouter.BadAddressIsZero | router/mqttRouter.go:169-172 | A segment with a non-hex character, before any overflow, addresses device 0. |
| BusRouter.SlashInRootShiftsSegments | router/mqttRouter.go:88-99 | If the root topic contains "/", the router reads the root's second half as the address segment and the address as the verb. A request on the router's own device topic then has no effect. |
| BusRouter.DeviceTopicsAddressTheDevice | router/mqttRouter.go:56-69 | A request on the router's own device topic for an address reaches the device handler with that same address. |
| BusRouter.NoSubscribersNoCalls | router/mqttRouter.go:144-237 | With no callbacks registered, an inbound message can only publish. |
| BusRouter.LegacyMqttService.MqqtMessage | service/mqttMessageService.go:53-72 | The effects grow by the earlier routing of the topic and body. |
| BusRouter.LegacyMqttService.HandleGetCommand | service/mqttMessageService.go:74-76 | The earlier get handler has an empty body: it changes nothing and has no effect. |
| BusRouter.LegacyMqttService.HandleSetCommand | service/mqttMessageService.go:78-96 | A body that decodes reaches a registered set callback with the address and the copied fields. |
| BusRouter.LegacyMqttService.ProccessMessageFromDevice | service/mqttMessageService.go:39-47 | It publishes the encoded report on "<topic>/<decimal address>", or nothing if marshalling fails. |
| BusRouter.LegacyMqttService.SubscribeOnSetMessage | service/mqttMessageService.go:49-51 | Registers the set callback. |
| BusRouter.LegacyRouting | service/mqttMessageService.go:53-72 | Short topics, get requests and any other verb do nothing. Set is routed with segment 1 parsed as the address. |
| BusRouter.VariantsAgreeOnSet | service/mqttMessageService.go:69-95 | On a device set request, the earlier service and the router have the same effects. |
| BusRouter.GatewayIsAddressZero | service/mqttMessageService.go:59-62 | Without a gateway branch, "gateway" is parsed as a device address, and it parses as 0. |
| BusRouter.LegacyTopicsDisagree | service/mqttMessageService.go:46 | Outbound topics are decimal but inbound ones are hex. Device 16's topic "16" reads back as device 22. |
| RadioRouter.ZigbeeRouter.ProccessSetDeviceConfigMessage | router/zigbeeRouter.go:62-79 | The effects grow by the join-policy calls. The configuration is never updated. |
| RadioRouter.JoinPolicy | router/zigbeeRouter.go:62-79 | There is no stack call when the request equals the configuration. Otherwise there is exactly one call: PermitJoin(true) when permitting, DenyJoin when denying. |
| RadioRouter.ZigbeeRouter.CopyClusterList | router/zigbeeRouter.go:120-130 | The copied cluster list has the same length and the same elements in order. |
| RadioRouter.ZigbeeRouter.CollectEndpoints | router/zigbeeRouter.go:107-133 | The loop yields `EndpointsOf` the endpoint list: one summary per successful query, in query order. |
| RadioRouter.ZigbeeRouter.ProccessGetDeviceDescriptionMessage | router/zigbeeRouter.go:81-136 | The effects grow by the explore effects of the address under the current callbacks. |
| RadioRouter.EndpointsOfAppend | router/zigbeeRouter.go:107-133 | The endpoint loop over a concatenation is the concatenation of the loops. |
| RadioRouter.EndpointsFollowQueries | router/zigbeeRouter.go:107-133 | There are never more summaries than endpoints. If every query fails there are none. If every query succeeds, the i-th summary describes the i-th endpoint. |
| RadioRouter.ExploreNeedsBothQueries | router/zigbeeRouter.go:92-135 | Nothing is published exactly when the node-descriptor or endpoint-list query fails. Otherwise the description carries the descriptor's fields and the endpoint summaries. |
| RadioRouter.ZigbeeRouter.CollectAttributeIds | router/zigbeeRouter.go:140-143 | The attribute IDs have the requested count and order. |
| RadioRouter.ZigbeeRouter.ProccessGetMessageToDevice | router/zigbeeRouter.go:138-172 | The effects grow by the get effects: one unacknowledged send of the marshalled Read Attributes frame, or nothing. |
| RadioRouter.GetSendsReadAttributes | router/zigbeeRouter.go:145-169 | A send happens exactly when a global client-to-server Read Attributes frame marshals. That frame goes from endpoint 1 to the requested endpoint, with sequence 1, no manufacturer and the requested IDs. The send goes to the requested address. |
| RadioRouter.ZigbeeRouter.ProccessMessageToDevice | router/zigbeeRouter.go:174-219 | The effects grow by the send-command effects. The command struct's fields are set from CommandData by the earlier setter. |
| RadioRouter.SendCommandGuarded | router/zigbeeRouter.go:187-212 | An unknown command is never marshalled or sent. A sent frame carries the struct's fields, and only fields that CommandData names can differ from the struct's zero value. |
| RadioRouter.ZigbeeRouter.SaveNodeDB | router/zigbeeRouter.go:221-233 | The registry becomes the old one with the node's seven fields saved under its address. |
| RadioRouter.SavedRecordKeepsNode | router/zigbeeRouter.go:222-230 | No node field is lost: the saved record gives the node back. In service/zigbeeMessageService.go:74-86, the earlier service's record copies the same seven fields, unchanged. In handler/zigbeeMessageHandler.go:28-40, the earlier handler's record copies the same seven fields, unchanged. |
| RadioRouter.SavedNodeIsFound | router/zigbeeRouter.go:221-233 | After a save, the registry answers for the node's address with the node's record. |
| RadioRouter.ZigbeeRouter.CollectAttributes | router/zigbeeRouter.go:344-348 | The loop yields `AttributeMap` of the records. |
| RadioRouter.ZigbeeRouter.ProcessAttributes | router/zigbeeRouter.go:331-357 | A registered device-message callback receives the sender, the link quality, the cluster's ID and name from the schema, and the attribute map. |
| RadioRouter.AttributeMapKeys | router/zigbeeRouter.go:316-320 | The keys of the attribute map are exactly the schema names of the records' attribute IDs, with "" for an unknown ID. In handler/messageHandler.go:47-53, the earlier message handler keys values by schema name, with "" for an unknown ID. |
| RadioRouter.AttributeMapLastWins | router/zigbeeRouter.go:344-348 | A key holds the value of the last record carrying that name. In handler/zigbeeMessageHandler.go:75-80, the earlier handler's loop overwrites duplicates the same way. |
| RadioRouter.UnknownClusterUsesEmptyName | router/zigbeeRouter.go:332-348 | With an unknown cluster, every value lands under "". |
| RadioRouter.ReportNamesCluster | router/zigbeeRouter.go:332-342 | ClusterID and ClusterName come from the schema: 0 and "" for an unknown cluster, its own entry for a known one. |
| RadioRouter.ReadRecords | router/zigbeeRouter.go:317-320 | A read response whose records all carry a value becomes the same number of attribute records, in order, each with its record's identifier and value. |
| RadioRouter.ZigbeeRouter.CollectReadAttributes | router/zigbeeRouter.go:316-320 | The loop fails exactly when some record has no value. Otherwise it yields `AttributeMap` of the records, as for a report. |
| RadioRouter.ZigbeeRouter.ProcessReadResponse | router/zigbeeRouter.go:303-329 | If every record carries a value, a registered device-message callback receives the same message as for a report of those values. If some record has no value, the effect is `Panic` and no callback runs, because `r.DataTypeValue.Value` dereferences nil. |
| RadioRouter.FailedReadPanics | router/zigbeeRouter.go:316-320 | When the codec gives a value exactly to records with status SUCCESS, a read response panics exactly when some record failed, and then `Panic` is the only effect. Otherwise the callback receives the values. |
| RadioRouter.UnsupportedAttributePanics | router/zigbeeRouter.go:316-320 | A response whose one record has status UNSUPPORTED_ATTRIBUTE (0x86) and no value has exactly the effect `Panic`. |
| RadioRouter.TranslateCases | router/zigbeeRouter.go:258-372 | Undecodable frames, other command kinds and read responses with a failed record produce no message. A report and a fully successful read response with the same identifiers and values give the same message. Every message carries the sender and the link quality. A default response carries the envelope's cluster ID, the echoed command ID and the status, from the sender with its link quality. |
| RadioRouter.ZigbeeRouter.ProcessIncomingMessage | router/zigbeeRouter.go:258-280 | The sender is saved first. Then the effects grow by the translated message, forwarded only to a registered callback, or by `Panic` for a read response with a failed record. |
| RadioRouter.ZigbeeRouter.ProcessNodeJoin | router/zigbeeRouter.go:235-241 | It saves the node, then calls a registered join callback. |
| RadioRouter.ZigbeeRouter.ProcessNodeLeave | router/zigbeeRouter.go:243-248 | It never touches the registry and calls only a registered leave callback. |
| RadioRouter.ZigbeeRouter.ProcessNodeUpdate | router/zigbeeRouter.go:250-256 | It saves the node, then calls a registered update callback. |
| RadioRouter.ZigbeeRouter.HandleEvent | router/zigbeeRouter.go:511-524 | One event: the registry becomes `StoreAfter` of the event, and the effects grow by the event's effects. |
| RadioRouter.ZigbeeRouter.SubscribeOnDeviceMessage | router/zigbeeRouter.go:42-44 | Registers the device-message callback. |
| RadioRouter.ZigbeeRouter.SubscribeOnDeviceDescription | router/zigbeeRouter.go:46-48 | Registers the description callback. |
| RadioRouter.ZigbeeRouter.SubscribeOnDeviceJoin | router/zigbeeRouter.go:50-52 | Registers the join callback. |
| RadioRouter.ZigbeeRouter.SubscribeOnDeviceLeave | router/zigbeeRouter.go:54-56 | Registers the leave callback. |
| RadioRouter.ZigbeeRouter.SubscribeOnDeviceUpdate | router/zigbeeRouter.go:58-60 | Registers the update callback. |
| RadioRouter.EventsKeepRegistryValid | router/zigbeeRouter.go:235-259 | A leave leaves the registry unchanged. The other events keep it valid and make the node's address answer with its record. |
| RadioRouter.LegacyZigbeeService.ProccessMessageToDevice | service/zigbeeMessageService.go:32-72 | It sends the marshalled Toggle frame with acknowledgement, or nothing if marshalling fails. |
| RadioRouter.LegacySendIgnoresCommandData | service/zigbeeMessageService.go:32-72 | Requests that differ only in CommandData send the same frame. |
| RadioRouter.LegacyZigbeeService.CollectAttributes | service/zigbeeMessageService.go:126-131 | The loop yields `AttributeMap` of the records. |
| RadioRouter.LegacyZigbeeService.ProcessIncomingMessage | service/zigbeeMessageService.go:96-136 | The sender is saved. Only a Report Attributes frame produces a report, and only a registered callback receives it. |
| RadioRouter.LegacyZigbeeService.HandleEvent | service/zigbeeMessageService.go:168-181 | Joins and updates save the node, and a leave changes nothing. A message saves its sender and yields a report exactly for a Report Attributes frame, to a registered callback. |
| RadioRouter.LegacyZigbeeService.SubscribeOnAttributesReport | service/zigbeeMessageService.go:28-30 | Registers the report callback. |
| RadioRouter.LegacyReportAgrees | service/zigbeeMessageService.go:107-131 | A report exists exactly for Report Attributes frames. It carries what the current router's message carries. |
| RadioRouter.LegacyPublishesEveryReport | handler/messageHandler.go:24-59 | Each translated report is published exactly once, on "<topic>/<decimal sender address>". Nothing else is published. |
| RadioRouter.ReportHandler.ProcessIncomingMessage | handler/messageHandler.go:24-59 | The effects grow by the legacy publish effects. A marshal failure publishes an empty payload, because the error is discarded. |
| RadioRouter.ReportHandler.ProcessIncomingEvent | handler/zigbeeMessageHandler.go:50-86 | It saves the sender, then publishes as the message handler does. |
| RadioRouter.ReportHandler.HandleEvent | handler/zigbeeMessageHandler.go:118-131 | Joins and updates save the node, and a leave neither saves nor publishes. A message saves its sender and is published. |

## Left out

- Concurrency: the event loops and the `go` statements run each handler as one sequential step. Races between a save and a later read are not modelled.
- BusRouter.DeviceTopicsAddressTheDevice: requires a root topic without "/". With a "/" in the root, the Go router reads the wrong segments, and `BusRouter.SlashInRootShiftsSegments` shows that such requests then do nothing.
- Network I/O: the MQTT clients (connect, subscribe, reconnect) are not modelled. The root-topic prefix that Publish adds is the string parameter of `BusRouter.ClientTopic`.
- The network co-processor, the serial port and the ZCL wire encoding are partial maps. Marshal, Unmarshal, GetLocalCommand and the node queries are keyed by their arguments. Send errors are only logged and are not modelled.
- JSON is a partial map as well. Marshalling and unmarshalling never inspect field tags or field order.
- JSON numbers in CommandData arrive as float64 in Go. An integral JSON number v with |v| <= 2^53 is modelled as the source `IntSource(Int, v)`. For such v, both setters store what Go stores: `int64(v)` on signed fields and `uint64(math.Abs(v))` on unsigned fields are exact. `IntSource(Int64, v)` would be wrong for a JSON number, because neither setter has an int64 case for signed fields. Non-integral numbers and numbers beyond 2^53 are left out.
- Floating point: `setFloat` stores `FloatNear(n)`, the float nearest to n, which is not evaluated further.
- `ConvertType` in internal/utils/reflector/reflector_interface.go is not part of this model, because it converts floats.
- LittleEndian.Btoi64: requires at least eight bytes. On shorter input the Go code panics on the slice index, and that panic is not modelled.
- FieldSetter.Applied: requires the same `Settable` condition on every key that names a field: each source value lies in its own Go type's range, and on unsigned fields its magnitude is at most 2^53. Go accepts every value, and the rounding beyond 2^53 is not modelled.
- FieldSetter.Record.SetStructPropertyByName: requires the same `Settable` condition for the named field, for the same reason.
- FieldSetter.Record.SetStructProperties: requires each source value to lie in its own Go type's range. On unsigned fields, it also requires a magnitude of at most 2^53, where the detour through float64 is exact. Beyond 2^53 the Go code rounds, and that rounding is not modelled.
- RadioRouter.ZigbeeRouter.ProccessMessageToDevice: requires the same condition (`SettableData`) for the fields of the command struct that CommandData names, for the same reason.
- Configuration loading and saving (YAML and file I/O) are not modelled. The configuration service's `Update` accepts every configuration and keeps none of it (`BusRouter.UpdateConfiguration`). The radio router's copy of the configuration is a constant.
- Storage internals: Badger and Pebble, transactions and gob encoding are not modelled. A stored value either decodes to a record or does not.
- Two earlier callers save nodes through their own store API, and both are modelled with the same registry: the earlier handler (handler/zigbeeMessageHandler.go:28-40) and the earlier service (service/zigbeeMessageService.go:74-86, `db.DevicesRepo.SaveNode`).
- Logging, timeouts and the `context` arguments are not modelled.
- `time.Time` fields are opaque natural numbers.
- `exploreDevice` in the earlier handler and `ExploreDevice` in utils/utils.go only log the stack's answers, so they have no effect to model.
- The ZCL codec, which is not part of this model, leaves a Read Attributes Response record without a value exactly when its status is not SUCCESS (section 2.5.2 of the Zigbee Cluster Library specification). The model takes the value as given, and `RadioRouter.FailedReadPanics` assumes this pairing. The nil dereference on a failed record is recorded as the effect `Panic`. In Go it ends the process, because it happens in the goroutine the event loop starts. The model does not stop later events. Report Attributes records always carry a value, so the earlier handlers, which translate only reports, cannot reach this panic.
- The nil call through an unregistered function value is recorded as the effect `NilCall`. In Go it panics. The model does not stop the handler there, and no effect follows in any case.
- Process wiring (cmd/gigbee2mqtt/main.go, gigbee2mqtt.go) and the interface and type-only files are used only for record shapes and subtopic names.
- The earlier handler/mqttMessageHandler.go has no behaviour beyond a length check.
