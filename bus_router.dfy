/** The bus-side router: it reads inbound MQTT topics
    "<root>/gateway/<command>" and "<root>/<address>/<verb>", hands requests
    to the registered callbacks, and publishes device messages, the device
    list and the configuration. Also the earlier message service, which has
    no gateway branch and publishes on decimal topics. */
module BusRouter {
  import opened Common
  import opened Topics
  import opened Messages
  import opened Registry

  const DEVICE_SET: string := "set"
  const DEVICE_GET: string := "get"
  const DEVICE_EXPLORE: string := "explore"
  const GET_DEVICES: string := "get_devices"
  const GET_CONFIG: string := "get_config"
  const SET_CONFIG: string := "set_config"
  const DEVICES: string := "devices"
  const CONFIG: string := "config"
  const GATEWAY: string := "gateway"

  /** What a handler does that can be seen from outside, in order. Publish
      records the subtopic handed to the bus client. NilCall is a call
      through a callback that was never registered (a nil function in Go). */
  datatype Effect =
    | Publish(topic: string, payload: seq<U8>)
    | SetCalled(command: DeviceCommandMessage)
    | GetCalled(get: DeviceGetMessage)
    | ExploreCalled(explore: DeviceExploreMessage)
    | ConfigCalled(config: DeviceConfigSetMessage)
    | NilCall

  /** Which callbacks are registered. */
  datatype Subscribers = Subscribers(onSet: bool, onGet: bool, onExplore: bool, onSetConfig: bool)

  /** The full topic the bus client publishes on: the root topic, then the subtopic. */
  function ClientTopic(root: string, subtopic: string): string
  {
    root + "/" + subtopic
  }

  // ---------------------------------------------------------------------
  // Topics and addresses.

  /** The address in a topic segment: every "0x" removed, then parsed as
      base-16 uint64. A parse error is only logged, so its value (0 for bad
      syntax, 2^64 - 1 for overflow) is what the request carries. */
  function DeviceAddress(segment: string): U64
  {
    ParseHex64(StripHexPrefixes(segment)).0
  }

  /** "0x" and the lowercase unpadded hex of the address, then "/" and the
      subtopic when there is one. */
  function DeviceTopic(address: U64, subtopic: string): string
  {
    var t := "0x" + FormatHex(address);
    if subtopic == "" then t else t + "/" + subtopic
  }

  /** Device topics split back into the address segment and the subtopic,
      and the address segment parses back to the address. */
  lemma DeviceTopicRoundTrip(address: U64, subtopic: string)
    requires SEPARATOR !in subtopic
    ensures SEPARATOR !in "0x" + FormatHex(address)
    ensures subtopic == "" ==> Split(DeviceTopic(address, subtopic)) == ["0x" + FormatHex(address)]
    ensures subtopic != "" ==> Split(DeviceTopic(address, subtopic)) == ["0x" + FormatHex(address), subtopic]
    ensures DeviceAddress("0x" + FormatHex(address)) == address
  {
    var hex := FormatHex(address);
    FormatHasNoX(address, 16);
    assert SEPARATOR !in "0x" + hex by {
      forall i | 0 <= i < |"0x" + hex| ensures ("0x" + hex)[i] != SEPARATOR {
        if i >= 2 {
          assert ("0x" + hex)[i] == hex[i - 2];
        }
      }
    }
    if subtopic == "" {
      SplitJoin(["0x" + hex]);
    } else {
      assert Join([subtopic]) == subtopic;
      assert Join(["0x" + hex, subtopic]) == "0x" + hex + "/" + subtopic;
      SplitJoin(["0x" + hex, subtopic]);
    }
    StripLeadingMarker(hex);
    ParseFormatHex(address);
  }

  // ---------------------------------------------------------------------
  // What one inbound message does.

  function DevicesListEffects(json: Json, listing: DeviceList): seq<Effect>
  {
    if listing.Failed? then []
    else if DevicesPayload(listing.devices) !in json.encode then []
    else [Publish(GATEWAY + "/" + DEVICES, json.encode[DevicesPayload(listing.devices)])]
  }

  function ConfigEffects(json: Json, config: Configuration): seq<Effect>
  {
    if ConfigPayload(config) !in json.encode then []
    else [Publish(GATEWAY + "/" + CONFIG, json.encode[ConfigPayload(config)])]
  }

  /** The configuration service's Update accepts every configuration and
      keeps none of it. */
  function UpdateConfiguration(config: Configuration): (ok: bool)
  {
    true
  }

  function SetConfigEffects(json: Json, subs: Subscribers, config: Configuration, body: seq<U8>): seq<Effect>
  {
    if body !in json.configBodies then []
    else
      var requested := json.configBodies[body].permitJoin;
      if !UpdateConfiguration(config.(permitJoin := requested)) then []
      else if subs.onSetConfig then [ConfigCalled(DeviceConfigSetMessage(requested))]
      else []
  }

  function GatewayEffects(command: string, body: seq<U8>, subs: Subscribers, json: Json,
                          config: Configuration, listing: DeviceList): seq<Effect>
  {
    (if command == GET_DEVICES then DevicesListEffects(json, listing) else [])
    + (if command == GET_CONFIG then ConfigEffects(json, config) else [])
    + (if command == SET_CONFIG then SetConfigEffects(json, subs, config, body) else [])
  }

  function GetEffects(address: U64, body: seq<U8>, subs: Subscribers, json: Json): seq<Effect>
  {
    if body !in json.getBodies then []
    else if !subs.onGet then []
    else
      var b := json.getBodies[body];
      [GetCalled(DeviceGetMessage(address, b.clusterId, b.endpoint, b.attributes))]
  }

  function SetEffects(address: U64, body: seq<U8>, onSet: bool, json: Json): seq<Effect>
  {
    if body !in json.setBodies then []
    else if !onSet then []
    else
      var b := json.setBodies[body];
      [SetCalled(DeviceCommandMessage(address, b.clusterId, b.endpoint, b.commandIdentifier, b.commandData))]
  }

  /** Guarded by the get subscriber, calling the explore subscriber. */
  function ExploreEffects(address: U64, subs: Subscribers): seq<Effect>
  {
    if !subs.onGet then []
    else if subs.onExplore then [ExploreCalled(DeviceExploreMessage(address))]
    else [NilCall]
  }

  function DeviceEffects(segment: string, verb: string, body: seq<U8>, subs: Subscribers, json: Json): seq<Effect>
  {
    var address := DeviceAddress(segment);
    (if verb == DEVICE_GET then GetEffects(address, body, subs, json) else [])
    + (if verb == DEVICE_SET then SetEffects(address, body, subs.onSet, json) else [])
    + (if verb == DEVICE_EXPLORE then ExploreEffects(address, subs) else [])
  }

  /** Everything one inbound message does. */
  function Inbound(topic: string, body: seq<U8>, subs: Subscribers, json: Json,
                   config: Configuration, listing: DeviceList): seq<Effect>
  {
    var parts := Split(topic);
    if |parts| < 3 then []
    else if parts[1] == GATEWAY then GatewayEffects(parts[2], body, subs, json, config, listing)
    else DeviceEffects(parts[1], parts[2], body, subs, json)
  }

  /** What PublishDeviceMessage does. */
  function OutboundEffects(address: U64, msg: Payload, subtopic: string, json: Json): seq<Effect>
  {
    if msg !in json.encode then [] else [Publish(DeviceTopic(address, subtopic), json.encode[msg])]
  }

  // ---------------------------------------------------------------------
  // The router.

  class MqttRouter {
    const json: Json
    const configuration: Configuration
    const database: DeviceDB
    var subscribers: Subscribers
    var effects: seq<Effect>

    constructor (json: Json, configuration: Configuration, database: DeviceDB)
      ensures this.json == json && this.configuration == configuration && this.database == database
      ensures subscribers == Subscribers(false, false, false, false)
      ensures effects == []
    {
      this.json := json;
      this.configuration := configuration;
      this.database := database;
      subscribers := Subscribers(false, false, false, false);
      effects := [];
    }

    method SubscribeOnSetMessage()
      modifies this
      ensures subscribers == old(subscribers).(onSet := true) && effects == old(effects)
    {
      subscribers := subscribers.(onSet := true);
    }

    method SubscribeOnGetMessage()
      modifies this
      ensures subscribers == old(subscribers).(onGet := true) && effects == old(effects)
    {
      subscribers := subscribers.(onGet := true);
    }

    method SubscribeOnExploreMessage()
      modifies this
      ensures subscribers == old(subscribers).(onExplore := true) && effects == old(effects)
    {
      subscribers := subscribers.(onExplore := true);
    }

    method SubscribeOnSetDeviceConfigMessage()
      modifies this
      ensures subscribers == old(subscribers).(onSetConfig := true) && effects == old(effects)
    {
      subscribers := subscribers.(onSetConfig := true);
    }

    method PublishDeviceMessage(address: U64, msg: Payload, subtopic: string)
      modifies this
      ensures subscribers == old(subscribers)
      ensures effects == old(effects) + OutboundEffects(address, msg, subtopic, json)
    {
      if msg !in json.encode {
        return;
      }
      var topic := "0x" + FormatHex(address);
      if subtopic != "" {
        topic := topic + "/" + subtopic;
      }
      effects := effects + [Publish(topic, json.encode[msg])];
    }

    method MqttMessage(topic: string, body: seq<U8>)
      modifies this
      ensures subscribers == old(subscribers)
      ensures effects == old(effects) + Inbound(topic, body, subscribers, json, configuration, ListingOf(database.store))
    {
      var parts := Split(topic);
      if |parts| < 3 {
        return;
      }
      if parts[1] == GATEWAY {
        HandleGatewayMessage(parts[2], body);
        return;
      }
      HandleDeviceMessage(parts[1], parts[2], body);
    }

    method HandleGatewayMessage(command: string, body: seq<U8>)
      modifies this
      ensures subscribers == old(subscribers)
      ensures effects == old(effects) + GatewayEffects(command, body, subscribers, json, configuration, ListingOf(database.store))
    {
      if command == GET_DEVICES {
        PublishDevicesList();
      }
      if command == GET_CONFIG {
        PublishConfig();
      }
      if command == SET_CONFIG {
        HandleSetConfig(body);
      }
    }

    method PublishConfig()
      modifies this
      ensures subscribers == old(subscribers)
      ensures effects == old(effects) + ConfigEffects(json, configuration)
    {
      if ConfigPayload(configuration) !in json.encode {
        return;
      }
      effects := effects + [Publish(GATEWAY + "/" + CONFIG, json.encode[ConfigPayload(configuration)])];
    }

    method HandleSetConfig(body: seq<U8>)
      modifies this
      ensures subscribers == old(subscribers)
      ensures effects == old(effects) + SetConfigEffects(json, subscribers, configuration, body)
    {
      if body !in json.configBodies {
        return;
      }
      var request := json.configBodies[body];
      var cfg := configuration.(permitJoin := request.permitJoin);
      if !UpdateConfiguration(cfg) {
        return;
      }
      if subscribers.onSetConfig {
        effects := effects + [ConfigCalled(DeviceConfigSetMessage(request.permitJoin))];
      }
    }

    method PublishDevicesList()
      modifies this
      ensures subscribers == old(subscribers)
      ensures effects == old(effects) + DevicesListEffects(json, ListingOf(database.store))
    {
      var listing := database.GetDevices();
      if listing.Failed? {
        return;
      }
      if DevicesPayload(listing.devices) !in json.encode {
        return;
      }
      effects := effects + [Publish(GATEWAY + "/" + DEVICES, json.encode[DevicesPayload(listing.devices)])];
    }

    method HandleDeviceMessage(segment: string, verb: string, body: seq<U8>)
      modifies this
      ensures subscribers == old(subscribers)
      ensures effects == old(effects) + DeviceEffects(segment, verb, body, subscribers, json)
    {
      var (address, _) := ParseHex64(StripHexPrefixes(segment));
      if verb == DEVICE_GET {
        HandleDeviceGetCommand(address, body);
      }
      if verb == DEVICE_SET {
        HandleDeviceSetCommand(address, body);
      }
      if verb == DEVICE_EXPLORE {
        HandleDeviceExploreCommand(address);
      }
    }

    method HandleDeviceExploreCommand(address: U64)
      modifies this
      ensures subscribers == old(subscribers)
      ensures effects == old(effects) + ExploreEffects(address, subscribers)
    {
      if subscribers.onGet {
        if subscribers.onExplore {
          effects := effects + [ExploreCalled(DeviceExploreMessage(address))];
        } else {
          effects := effects + [NilCall];
        }
      }
    }

    method HandleDeviceGetCommand(address: U64, body: seq<U8>)
      modifies this
      ensures subscribers == old(subscribers)
      ensures effects == old(effects) + GetEffects(address, body, subscribers, json)
    {
      if body !in json.getBodies {
        return;
      }
      var b := json.getBodies[body];
      if subscribers.onGet {
        effects := effects + [GetCalled(DeviceGetMessage(address, b.clusterId, b.endpoint, b.attributes))];
      }
    }

    method HandleDeviceSetCommand(address: U64, body: seq<U8>)
      modifies this
      ensures subscribers == old(subscribers)
      ensures effects == old(effects) + SetEffects(address, body, subscribers.onSet, json)
    {
      if body !in json.setBodies {
        return;
      }
      var b := json.setBodies[body];
      if subscribers.onSet {
        effects := effects + [SetCalled(DeviceCommandMessage(address, b.clusterId, b.endpoint, b.commandIdentifier, b.commandData))];
      }
    }
  }

  // ---------------------------------------------------------------------
  // Properties of the router.

  /** A topic with fewer than three segments does nothing. */
  lemma ShortTopicIsDropped(topic: string, body: seq<U8>, subs: Subscribers, json: Json,
                            config: Configuration, listing: DeviceList)
    requires |Split(topic)| < 3
    ensures Inbound(topic, body, subs, json, config, listing) == []
  {
  }

  /** One inbound message causes at most one publish or callback. */
  lemma AtMostOneEffect(topic: string, body: seq<U8>, subs: Subscribers, json: Json,
                        config: Configuration, listing: DeviceList)
    ensures |Inbound(topic, body, subs, json, config, listing)| <= 1
  {
    var parts := Split(topic);
    if |parts| >= 3 {
      if parts[1] == GATEWAY {
        assert |GatewayEffects(parts[2], body, subs, json, config, listing)| <= 1;
      } else {
        assert |DeviceEffects(parts[1], parts[2], body, subs, json)| <= 1;
      }
    }
  }

  /** Only segments 1 and 2 matter: the root segment and anything after the
      third segment are never read. */
  lemma OnlySegmentsOneAndTwoMatter(t1: string, t2: string, body: seq<U8>, subs: Subscribers,
                                    json: Json, config: Configuration, listing: DeviceList)
    requires |Split(t1)| >= 3 && |Split(t2)| >= 3
    requires Split(t1)[1] == Split(t2)[1] && Split(t1)[2] == Split(t2)[2]
    ensures Inbound(t1, body, subs, json, config, listing) == Inbound(t2, body, subs, json, config, listing)
  {
  }

  /** A gateway command other than the three known ones does nothing, and
      each known one does what its handler does. */
  lemma GatewayCommands(command: string, body: seq<U8>, subs: Subscribers, json: Json,
                        config: Configuration, listing: DeviceList)
    ensures command !in {GET_DEVICES, GET_CONFIG, SET_CONFIG} ==>
      GatewayEffects(command, body, subs, json, config, listing) == []
    ensures command == GET_DEVICES ==>
      GatewayEffects(command, body, subs, json, config, listing) ==
        (if listing.Listed? && DevicesPayload(listing.devices) in json.encode
         then [Publish("gateway/devices", json.encode[DevicesPayload(listing.devices)])] else [])
    ensures command == GET_CONFIG ==>
      GatewayEffects(command, body, subs, json, config, listing) ==
        (if ConfigPayload(config) in json.encode
         then [Publish("gateway/config", json.encode[ConfigPayload(config)])] else [])
  {
    assert GATEWAY + "/" + DEVICES == "gateway/devices";
    assert GATEWAY + "/" + CONFIG == "gateway/config";
    assert GET_DEVICES[4] != GET_CONFIG[4] && GET_DEVICES[4] != SET_CONFIG[4] && GET_CONFIG[0] != SET_CONFIG[0];
  }

  /** set_config calls the configuration callback exactly once, with the
      decoded PermitJoin, exactly when the body decodes and the callback is
      registered; it publishes nothing. */
  lemma SetConfigCallsBack(command: string, body: seq<U8>, subs: Subscribers, json: Json,
                           config: Configuration, listing: DeviceList)
    requires command == SET_CONFIG
    ensures GatewayEffects(command, body, subs, json, config, listing) != [] <==>
      body in json.configBodies && subs.onSetConfig
    ensures body in json.configBodies && subs.onSetConfig ==>
      GatewayEffects(command, body, subs, json, config, listing) ==
        [ConfigCalled(DeviceConfigSetMessage(json.configBodies[body].permitJoin))]
  {
  }

  /** A device verb other than get, set and explore does nothing, and a get
      or set body that does not decode is dropped. */
  lemma DeviceVerbs(segment: string, verb: string, body: seq<U8>, subs: Subscribers, json: Json)
    ensures verb !in {DEVICE_GET, DEVICE_SET, DEVICE_EXPLORE} ==> DeviceEffects(segment, verb, body, subs, json) == []
    ensures verb == DEVICE_GET && body !in json.getBodies ==> DeviceEffects(segment, verb, body, subs, json) == []
    ensures verb == DEVICE_SET && body !in json.setBodies ==> DeviceEffects(segment, verb, body, subs, json) == []
    ensures verb == DEVICE_SET && body in json.setBodies && subs.onSet ==>
      DeviceEffects(segment, verb, body, subs, json) ==
        [SetCalled(DeviceCommandMessage(DeviceAddress(segment), json.setBodies[body].clusterId,
                                        json.setBodies[body].endpoint, json.setBodies[body].commandIdentifier,
                                        json.setBodies[body].commandData))]
    ensures verb == DEVICE_GET && body in json.getBodies && subs.onGet ==>
      DeviceEffects(segment, verb, body, subs, json) ==
        [GetCalled(DeviceGetMessage(DeviceAddress(segment), json.getBodies[body].clusterId,
                                    json.getBodies[body].endpoint, json.getBodies[body].attributes))]
  {
  }

  /** Explore is forwarded only when a get subscriber exists, and with a get
      subscriber but no explore subscriber it calls a nil function. */
  lemma ExploreGuardedByGetSubscriber(segment: string, body: seq<U8>, subs: Subscribers, json: Json)
    ensures DeviceEffects(segment, DEVICE_EXPLORE, body, subs, json) ==
      if !subs.onGet then []
      else if subs.onExplore then [ExploreCalled(DeviceExploreMessage(DeviceAddress(segment)))]
      else [NilCall]
  {
  }

  /** The address segment: a fitting hex string gives its value, bad syntax
      gives 0 and overflow gives 2^64 - 1; dispatch goes on in every case. */
  lemma AddressParsing(segment: string)
    ensures var s := StripHexPrefixes(segment);
      (s != "" && AllHex(s) && HexValue(s) < 0x1_0000_0000_0000_0000 ==> DeviceAddress(segment) == HexValue(s))
      && (s != "" && AllHex(s) && HexValue(s) >= 0x1_0000_0000_0000_0000 ==> DeviceAddress(segment) == MAX_U64)
      && (s == "" ==> DeviceAddress(segment) == 0)
  {
    var s := StripHexPrefixes(segment);
    if s != "" && AllHex(s) {
      ParseAllHex(s);
    }
  }

  /** A segment holding a non-digit early enough parses as address 0. */
  lemma BadAddressIsZero(p: string, c: char, t: string)
    requires 'x' !in p + [c] + t
    requires AllHex(p) && HexValue(p) < 0x1_0000_0000_0000_0000 && !IsHexDigit(c)
    ensures DeviceAddress(p + [c] + t) == 0
  {
    StripWithoutX(p + [c] + t);
    ParseBadDigit(p, c, t);
  }

  /** A request addressed with the router's own device topic reaches the
      callback with that address: outbound topics and inbound parsing agree. */
  lemma DeviceTopicsAddressTheDevice(root: string, address: U64, verb: string, body: seq<U8>,
                                     subs: Subscribers, json: Json, config: Configuration, listing: DeviceList)
    requires SEPARATOR !in root && SEPARATOR !in verb && verb != ""
    ensures Split(ClientTopic(root, DeviceTopic(address, verb))) == [root, "0x" + FormatHex(address), verb]
    ensures Inbound(ClientTopic(root, DeviceTopic(address, verb)), body, subs, json, config, listing) ==
      DeviceEffects("0x" + FormatHex(address), verb, body, subs, json)
    ensures DeviceAddress("0x" + FormatHex(address)) == address
  {
    var seg := "0x" + FormatHex(address);
    DeviceTopicRoundTrip(address, verb);
    assert ClientTopic(root, DeviceTopic(address, verb)) == root + "/" + seg + "/" + verb;
    SplitThree(root, seg, verb);
    assert seg[0] == '0';
  }

  /** A root topic with a separator in it shifts every segment: the router
      then reads the root's second half as the address and the address as
      the verb, so a request on the router's own device topic does nothing. */
  lemma SlashInRootShiftsSegments(r1: string, r2: string, address: U64, verb: string, body: seq<U8>,
                                  subs: Subscribers, json: Json, config: Configuration, listing: DeviceList)
    requires SEPARATOR !in r1 && SEPARATOR !in r2 && SEPARATOR !in verb && verb != ""
    ensures Split(ClientTopic(r1 + "/" + r2, DeviceTopic(address, verb)))
      == [r1, r2, "0x" + FormatHex(address), verb]
    ensures Inbound(ClientTopic(r1 + "/" + r2, DeviceTopic(address, verb)), body, subs, json, config, listing) == []
  {
    var seg := "0x" + FormatHex(address);
    DeviceTopicRoundTrip(address, verb);
    assert DeviceTopic(address, verb) == seg + "/" + verb;
    assert ClientTopic(r1 + "/" + r2, DeviceTopic(address, verb)) == r1 + "/" + r2 + "/" + seg + "/" + verb;
    SplitFour(r1, r2, seg, verb);
    assert seg[0] == '0';
    if r2 == GATEWAY {
      assert GatewayEffects(seg, body, subs, json, config, listing) == [];
    } else {
      assert DeviceEffects(r2, seg, body, subs, json) == [];
    }
  }

  /** Unregistered callbacks are never called, except explore's nil call. */
  lemma NoSubscribersNoCalls(topic: string, body: seq<U8>, json: Json, config: Configuration, listing: DeviceList)
    ensures forall e :: e in Inbound(topic, body, Subscribers(false, false, false, false), json, config, listing) ==> e.Publish?
  {
  }

  // ---------------------------------------------------------------------
  // The earlier message service.

  function LegacyInbound(topic: string, body: seq<U8>, onSet: bool, json: Json): seq<Effect>
  {
    var parts := Split(topic);
    if |parts| < 3 then []
    else
      var address := DeviceAddress(parts[1]);
      // The get verb reaches an empty handler, so only set has effects.
      if parts[2] == DEVICE_SET then SetEffects(address, body, onSet, json) else []
  }

  function LegacyOutbound(root: string, report: LegacyReport, json: Json): seq<Effect>
  {
    if LegacyReportPayload(report) !in json.encode then []
    else [Publish(root + "/" + FormatDecimal(report.ieeeAddress), json.encode[LegacyReportPayload(report)])]
  }

  class LegacyMqttService {
    const json: Json
    const topic: string
    var onSet: bool
    var effects: seq<Effect>

    constructor (json: Json, topic: string)
      ensures this.json == json && this.topic == topic && !onSet && effects == []
    {
      this.json := json;
      this.topic := topic;
      onSet := false;
      effects := [];
    }

    method SubscribeOnSetMessage()
      modifies this
      ensures onSet && effects == old(effects)
    {
      onSet := true;
    }

    method ProccessMessageFromDevice(report: LegacyReport)
      modifies this
      ensures onSet == old(onSet)
      ensures effects == old(effects) + LegacyOutbound(topic, report, json)
    {
      if LegacyReportPayload(report) !in json.encode {
        return;
      }
      effects := effects + [Publish(topic + "/" + FormatDecimal(report.ieeeAddress), json.encode[LegacyReportPayload(report)])];
    }

    method MqqtMessage(inbound: string, body: seq<U8>)
      modifies this
      ensures onSet == old(onSet)
      ensures effects == old(effects) + LegacyInbound(inbound, body, onSet, json)
    {
      var parts := Split(inbound);
      if |parts| < 3 {
        return;
      }
      var (address, _) := ParseHex64(StripHexPrefixes(parts[1]));
      if parts[2] == DEVICE_GET {
        HandleGetCommand(address, body);
      }
      if parts[2] == DEVICE_SET {
        HandleSetCommand(address, body);
      }
    }

    /** The get handler of this service has an empty body. */
    method HandleGetCommand(address: U64, body: seq<U8>)
      ensures unchanged(this)
    {
    }

    method HandleSetCommand(address: U64, body: seq<U8>)
      modifies this
      ensures onSet == old(onSet)
      ensures effects == old(effects) + SetEffects(address, body, onSet, json)
    {
      if body !in json.setBodies {
        return;
      }
      var b := json.setBodies[body];
      if onSet {
        effects := effects + [SetCalled(DeviceCommandMessage(address, b.clusterId, b.endpoint, b.commandIdentifier, b.commandData))];
      }
    }
  }

  /** The earlier service drops short topics, ignores get, and treats
      "gateway" as a device address, which parses as 0. */
  lemma LegacyRouting(topic: string, body: seq<U8>, onSet: bool, json: Json)
    ensures |Split(topic)| < 3 ==> LegacyInbound(topic, body, onSet, json) == []
    ensures |Split(topic)| >= 3 && Split(topic)[2] != DEVICE_SET ==> LegacyInbound(topic, body, onSet, json) == []
    ensures |Split(topic)| >= 3 && Split(topic)[2] == DEVICE_SET ==>
      LegacyInbound(topic, body, onSet, json) == SetEffects(DeviceAddress(Split(topic)[1]), body, onSet, json)
  {
  }

  /** On a set request for a device the earlier service and the router agree. */
  lemma VariantsAgreeOnSet(topic: string, body: seq<U8>, subs: Subscribers, json: Json,
                           config: Configuration, listing: DeviceList)
    requires |Split(topic)| >= 3 && Split(topic)[1] != GATEWAY && Split(topic)[2] == DEVICE_SET
    ensures LegacyInbound(topic, body, subs.onSet, json) == Inbound(topic, body, subs, json, config, listing)
  {
  }

  lemma GatewayIsAddressZero()
    ensures DeviceAddress(GATEWAY) == 0
  {
    assert GATEWAY == [] + ['g'] + "ateway";
    BadAddressIsZero([], 'g', "ateway");
  }

  /** The earlier service publishes decimal addresses but parses hex ones:
      the topic it publishes for device 16 names device 22 when read back. */
  lemma LegacyTopicsDisagree()
    ensures FormatDecimal(16) == "16"
    ensures DeviceAddress(FormatDecimal(16)) == 22
  {
    assert FormatDecimal(16) == Format(1, 10) + [DigitChar(6)];
    assert FormatDecimal(16) == "16";
    StripWithoutX("16");
    assert "16" != "" && AllHex("16");
    assert HexValue("16") == 22 by {
      assert "16"[1..] == "6";
      assert "6"[1..] == "";
    }
    ParseAllHex("16");
  }
}
