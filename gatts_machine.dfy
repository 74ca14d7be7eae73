/**
 * The GATT server bring-up driven by GATTS events: registration creates the
 * Device Information service (0x180A); its creation starts it, adds two
 * read-only characteristics and, once, requests the Heart Rate service
 * (0x180D); that one's creation starts it, adds its measurement
 * characteristic and starts advertising. A connection asks for MITM
 * encryption; a disconnection restarts advertising.
 *
 * The handler's function-local statics are the fields of GattsState. The
 * next state depends only on the event; the commands also depend on the
 * statuses the stack answers with.
 */
module GattsMachine {
  import opened HexFormat
  import opened Ble
  import opened BringUp

  /** `device_info_if`, `device_info_service_handle`, `heart_rate_service_handle`, `heart_rate_service_added`. */
  datatype GattsState = GattsState(
    deviceInfoIf: GattIf,
    deviceInfoServiceHandle: Handle,
    heartRateServiceHandle: Handle,
    heartRateServiceAdded: bool)

  /** The statics' initial values. */
  const INITIAL: GattsState := GattsState(GATT_IF_NONE, 0, 0, false)

  /** The GATTS events the handler distinguishes, with the parameters it reads. */
  datatype GattsEvent =
    | RegEvt(status: Status)
    | CreateEvt(status: Status, uuid: Uuid16, serviceHandle: Handle)
    | ConnectEvt(remoteBda: Addr)
    | DisconnectEvt
    | OtherGattsEvent(code: nat)

  /** One handler call: the event and the GATT interface it arrived on. */
  datatype GattsInput = GattsInput(event: GattsEvent, gattsIf: GattIf)

  const MANUFACTURER_NAME: string := "ESPHome"
  const MODEL_NUMBER: string := "IRK Collector"
  /** Format flags and a placeholder heart rate. */
  const HEART_RATE_MEASUREMENT: seq<byte> := [0x06, 0x40]

  /** A successful creation of the given service. */
  predicate IsCreated(event: GattsEvent, uuid: Uuid16) {
    event.CreateEvt? && event.status.Ok? && event.uuid == uuid
  }

  /** The Heart Rate service is requested on this event. */
  predicate RequestsHeartRate(s: GattsState, event: GattsEvent) {
    IsCreated(event, DEVICE_INFO_SERVICE) && !s.heartRateServiceAdded
  }

  /** Start the Device Information service and, if that is accepted, add its two characteristics. */
  function StartDeviceInfoCommands(handle: Handle, replies: seq<Status>): seq<Command> {
    [StartService(handle)] +
    if ReplyAt(replies, 0).Ok? then
      [AddChar(handle, MANUFACTURER_NAME_CHAR, PERM_READ, PROP_READ, Text(MANUFACTURER_NAME)),
       AddChar(handle, MODEL_NUMBER_CHAR, PERM_READ, PROP_READ, Text(MODEL_NUMBER))]
    else []
  }

  /** Start the Heart Rate service and, if that is accepted, add its characteristic and start advertising. */
  function StartHeartRateCommands(handle: Handle, replies: seq<Status>): seq<Command> {
    [StartService(handle)] +
    if ReplyAt(replies, 0).Ok? then
      [AddChar(handle, HEART_RATE_MEASUREMENT_CHAR, PERM_READ, PROP_READ + PROP_NOTIFY, Bytes(HEART_RATE_MEASUREMENT))]
      + AdvertisingCommands(Drop(replies, 2))
    else []
  }

  /** Request the Heart Rate service; if the request is refused, start advertising anyway. */
  function RequestHeartRateCommands(gattsIf: GattIf, replies: seq<Status>): seq<Command> {
    [CreateService(gattsIf, HEART_RATE_SERVICE, SERVICE_NUM_HANDLE)] +
    if ReplyAt(replies, 0).Ok? then [] else AdvertisingCommands(Drop(replies, 1))
  }

  /** The start of a created service: Device Information or Heart Rate; any other service is left alone. */
  function StartCommands(uuid: Uuid16, handle: Handle, replies: seq<Status>): seq<Command> {
    if uuid == DEVICE_INFO_SERVICE then StartDeviceInfoCommands(handle, replies)
    else if uuid == HEART_RATE_SERVICE then StartHeartRateCommands(handle, replies)
    else []
  }

  /** What a CREATE event issues: the start of the created service, then the Heart Rate request when it is due. */
  function CreateCommands(s: GattsState, event: GattsEvent, gattsIf: GattIf, replies: seq<Status>): seq<Command>
    requires event.CreateEvt?
  {
    if !event.status.Ok? then []
    else
      var started := StartCommands(event.uuid, event.serviceHandle, replies);
      if RequestsHeartRate(s, event) then started + RequestHeartRateCommands(gattsIf, Drop(replies, |started|))
      else started
  }

  /** The commands one handler call issues. */
  function StepCommands(s: GattsState, input: GattsInput, replies: seq<Status>): seq<Command> {
    match input.event
    case RegEvt(status) =>
      if status.Ok? then [CreateService(input.gattsIf, DEVICE_INFO_SERVICE, SERVICE_NUM_HANDLE)] else []
    case CreateEvt(_, _, _) => CreateCommands(s, input.event, input.gattsIf, replies)
    case ConnectEvt(remoteBda) => [SetEncryption(remoteBda, EncryptMitm)]
    case DisconnectEvt => AdvertisingCommands(replies)
    case OtherGattsEvent(_) => []
  }

  /** The statics after one handler call. */
  function NextState(s: GattsState, input: GattsInput): GattsState {
    match input.event
    case RegEvt(status) => if status.Ok? then s.(deviceInfoIf := input.gattsIf) else s
    case CreateEvt(status, uuid, handle) =>
      if !status.Ok? then s
      else
        var s1 :=
          if uuid == DEVICE_INFO_SERVICE then s.(deviceInfoServiceHandle := handle)
          else if uuid == HEART_RATE_SERVICE then s.(heartRateServiceHandle := handle)
          else s;
        if RequestsHeartRate(s, input.event) then s1.(heartRateServiceAdded := true) else s1
    case _ => s
  }

  /** The commands a sequence of handler calls issues, each consuming the statuses of its own commands. */
  function RunCommands(s: GattsState, inputs: seq<GattsInput>, replies: seq<Status>): seq<Command>
    decreases |inputs|
  {
    if inputs == [] then []
    else
      var cmds := StepCommands(s, inputs[0], replies);
      cmds + RunCommands(NextState(s, inputs[0]), inputs[1..], Drop(replies, |cmds|))
  }

  /** The statics after a sequence of handler calls. */
  function RunState(s: GattsState, inputs: seq<GattsInput>): GattsState
    decreases |inputs|
  {
    if inputs == [] then s else RunState(NextState(s, inputs[0]), inputs[1..])
  }

  /** How many Heart Rate service creations a trace requests. */
  function HeartRateRequests(cmds: seq<Command>): (n: nat)
    ensures n <= |cmds|
  {
    if cmds == [] then 0
    else (if cmds[0].CreateService? && cmds[0].uuid == HEART_RATE_SERVICE then 1 else 0) + HeartRateRequests(cmds[1..])
  }

  lemma {:induction false} HeartRateRequestsAppend(a: seq<Command>, b: seq<Command>)
    ensures HeartRateRequests(a + b) == HeartRateRequests(a) + HeartRateRequests(b)
  {
    if a == [] {
      assert a + b == b;
    } else {
      assert (a + b)[1..] == a[1..] + b;
      HeartRateRequestsAppend(a[1..], b);
    }
  }

  lemma {:induction false} NoHeartRateRequests(cmds: seq<Command>)
    requires forall k :: 0 <= k < |cmds| ==> !cmds[k].CreateService?
    ensures HeartRateRequests(cmds) == 0
  {
    if cmds != [] {
      NoHeartRateRequests(cmds[1..]);
    }
  }

  lemma AdvertisingRequestsNoService(replies: seq<Status>)
    ensures HeartRateRequests(AdvertisingCommands(replies)) == 0
  {
    NoHeartRateRequests(AdvertisingCommands(replies));
  }

  /**
   * One handler call requests the Heart Rate service exactly when it
   * handles a successful creation of 0x180A and has not requested it
   * before (whether or not starting 0x180A succeeded); the flag records it.
   */
  lemma StepHeartRateRequests(s: GattsState, input: GattsInput, replies: seq<Status>)
    ensures HeartRateRequests(StepCommands(s, input, replies)) == if RequestsHeartRate(s, input.event) then 1 else 0
    ensures NextState(s, input).heartRateServiceAdded == (s.heartRateServiceAdded || RequestsHeartRate(s, input.event))
  {
    var e := input.event;
    match e
    case RegEvt(status) =>
      assert HeartRateRequests(StepCommands(s, input, replies)) == 0;
    case CreateEvt(status, uuid, handle) =>
      if status.Ok? {
        var started :=
          if uuid == DEVICE_INFO_SERVICE then StartDeviceInfoCommands(handle, replies)
          else if uuid == HEART_RATE_SERVICE then StartHeartRateCommands(handle, replies)
          else [];
        assert HeartRateRequests(started) == 0 by {
          if uuid == HEART_RATE_SERVICE && uuid != DEVICE_INFO_SERVICE && ReplyAt(replies, 0).Ok? {
            var tail := Drop(replies, 2);
            var added := [StartService(handle),
              AddChar(handle, HEART_RATE_MEASUREMENT_CHAR, PERM_READ, PROP_READ + PROP_NOTIFY, Bytes(HEART_RATE_MEASUREMENT))];
            assert started == added + AdvertisingCommands(tail);
            NoHeartRateRequests(added);
            AdvertisingRequestsNoService(tail);
            HeartRateRequestsAppend(added, AdvertisingCommands(tail));
          } else {
            NoHeartRateRequests(started);
          }
        }
        if RequestsHeartRate(s, e) {
          var rest := Drop(replies, |started|);
          var create := [CreateService(input.gattsIf, HEART_RATE_SERVICE, SERVICE_NUM_HANDLE)];
          var after := if ReplyAt(rest, 0).Ok? then [] else AdvertisingCommands(Drop(rest, 1));
          assert HeartRateRequests(create) == 1 by { assert create[1..] == []; }
          AdvertisingRequestsNoService(Drop(rest, 1));
          HeartRateRequestsAppend(create, after);
          HeartRateRequestsAppend(started, create + after);
          assert StepCommands(s, input, replies) == started + (create + after);
        }
      }
    case ConnectEvt(_) =>
      assert HeartRateRequests(StepCommands(s, input, replies)) == 0 by {
        NoHeartRateRequests(StepCommands(s, input, replies));
      }
    case DisconnectEvt =>
      AdvertisingRequestsNoService(replies);
    case OtherGattsEvent(_) =>
  }

  /** Over any run the requests made equal the change in the flag, which is never cleared. */
  lemma {:induction false} RunHeartRateRequests(s: GattsState, inputs: seq<GattsInput>, replies: seq<Status>)
    ensures s.heartRateServiceAdded ==> RunState(s, inputs).heartRateServiceAdded
    ensures HeartRateRequests(RunCommands(s, inputs, replies)) + (if s.heartRateServiceAdded then 1 else 0)
            == if RunState(s, inputs).heartRateServiceAdded then 1 else 0
    decreases |inputs|
  {
    if inputs != [] {
      var cmds := StepCommands(s, inputs[0], replies);
      StepHeartRateRequests(s, inputs[0], replies);
      RunHeartRateRequests(NextState(s, inputs[0]), inputs[1..], Drop(replies, |cmds|));
      HeartRateRequestsAppend(cmds, RunCommands(NextState(s, inputs[0]), inputs[1..], Drop(replies, |cmds|)));
    }
  }

  /** From the initial statics, the Heart Rate service is requested at most once over any sequence of events. */
  lemma HeartRateRequestedAtMostOnce(inputs: seq<GattsInput>, replies: seq<Status>)
    ensures HeartRateRequests(RunCommands(INITIAL, inputs, replies)) <= 1
  {
    RunHeartRateRequests(INITIAL, inputs, replies);
  }

  /** A REG or CREATE event with a failed status issues nothing and changes nothing. */
  lemma FailedEventIssuesNothing(s: GattsState, input: GattsInput, replies: seq<Status>)
    requires input.event.RegEvt? || input.event.CreateEvt?
    requires !input.event.status.Ok?
    ensures StepCommands(s, input, replies) == [] && NextState(s, input) == s
  {
  }

  /** CONNECT asks for MITM encryption of that peer; DISCONNECT restarts advertising; neither touches the statics. */
  lemma ConnectionEvents(s: GattsState, input: GattsInput, replies: seq<Status>)
    requires input.event.ConnectEvt? || input.event.DisconnectEvt?
    ensures NextState(s, input) == s
    ensures input.event.ConnectEvt? ==> StepCommands(s, input, replies) == [SetEncryption(input.event.remoteBda, EncryptMitm)]
    ensures input.event.DisconnectEvt? ==> StepCommands(s, input, replies) == AdvertisingCommands(replies)
  {
  }

  /** The status the Heart Rate request gets on a 0x180A creation: it comes after one or three start commands. */
  function HeartRateRequestReply(replies: seq<Status>): Status {
    ReplyAt(replies, if ReplyAt(replies, 0).Ok? then 3 else 1)
  }

  /**
   * Advertising is (re)configured in exactly three situations: the Heart
   * Rate service was created and started, the Heart Rate request was
   * refused, or a peer disconnected.
   */
  lemma AdvertisingEntryPoints(s: GattsState, input: GattsInput, replies: seq<Status>)
    ensures ConfigAdvData(AdvertisingData) in StepCommands(s, input, replies) <==>
      || input.event.DisconnectEvt?
      || (IsCreated(input.event, HEART_RATE_SERVICE) && ReplyAt(replies, 0).Ok?)
      || (RequestsHeartRate(s, input.event) && !HeartRateRequestReply(replies).Ok?)
    ensures StartAdvertising(ADV_PARAMS) in StepCommands(s, input, replies) ==>
      ConfigAdvData(AdvertisingData) in StepCommands(s, input, replies)
  {
  }

  /**
   * The full bring-up when every call succeeds: registration, Device
   * Information created, Heart Rate created, then advertising, started
   * exactly once; a later disconnection restarts it exactly once.
   */
  lemma BringUpScenario(gattsIf: GattIf, infoHandle: Handle, rateHandle: Handle)
    ensures RunCommands(INITIAL,
      [GattsInput(RegEvt(Ok), gattsIf),
       GattsInput(CreateEvt(Ok, DEVICE_INFO_SERVICE, infoHandle), gattsIf),
       GattsInput(CreateEvt(Ok, HEART_RATE_SERVICE, rateHandle), gattsIf)], [])
      == [CreateService(gattsIf, DEVICE_INFO_SERVICE, SERVICE_NUM_HANDLE),
          StartService(infoHandle),
          AddChar(infoHandle, MANUFACTURER_NAME_CHAR, PERM_READ, PROP_READ, Text(MANUFACTURER_NAME)),
          AddChar(infoHandle, MODEL_NUMBER_CHAR, PERM_READ, PROP_READ, Text(MODEL_NUMBER)),
          CreateService(gattsIf, HEART_RATE_SERVICE, SERVICE_NUM_HANDLE),
          StartService(rateHandle),
          AddChar(rateHandle, HEART_RATE_MEASUREMENT_CHAR, PERM_READ, PROP_READ + PROP_NOTIFY, Bytes(HEART_RATE_MEASUREMENT)),
          ConfigAdvData(AdvertisingData),
          ConfigAdvData(ScanResponseData),
          SetDeviceName(DEVICE_NAME),
          StartAdvertising(ADV_PARAMS)]
    ensures RunState(INITIAL,
      [GattsInput(RegEvt(Ok), gattsIf),
       GattsInput(CreateEvt(Ok, DEVICE_INFO_SERVICE, infoHandle), gattsIf),
       GattsInput(CreateEvt(Ok, HEART_RATE_SERVICE, rateHandle), gattsIf)])
      == GattsState(gattsIf, infoHandle, rateHandle, true)
    ensures AdvertisingStarts(StepCommands(GattsState(gattsIf, infoHandle, rateHandle, true), GattsInput(DisconnectEvt, gattsIf), [])) == 1
  {
    var s0 := INITIAL;
    var i0 := GattsInput(RegEvt(Ok), gattsIf);
    var i1 := GattsInput(CreateEvt(Ok, DEVICE_INFO_SERVICE, infoHandle), gattsIf);
    var i2 := GattsInput(CreateEvt(Ok, HEART_RATE_SERVICE, rateHandle), gattsIf);
    var s1 := NextState(s0, i0);
    var s2 := NextState(s1, i1);
    var s3 := NextState(s2, i2);
    assert s1 == GattsState(gattsIf, 0, 0, false);
    assert s2 == GattsState(gattsIf, infoHandle, 0, true);
    assert s3 == GattsState(gattsIf, infoHandle, rateHandle, true);
    var inputs := [i0, i1, i2];
    assert inputs[1..] == [i1, i2] && [i1, i2][1..] == [i2] && [i2][1..] == [];
    assert RunState(s0, inputs) == RunState(s1, [i1, i2]) == RunState(s2, [i2]) == RunState(s3, []);
    var c0 := StepCommands(s0, i0, []);
    var c1 := StepCommands(s1, i1, []);
    var c2 := StepCommands(s2, i2, []);
    assert c0 == [CreateService(gattsIf, DEVICE_INFO_SERVICE, SERVICE_NUM_HANDLE)];
    assert c1 == [StartService(infoHandle),
          AddChar(infoHandle, MANUFACTURER_NAME_CHAR, PERM_READ, PROP_READ, Text(MANUFACTURER_NAME)),
          AddChar(infoHandle, MODEL_NUMBER_CHAR, PERM_READ, PROP_READ, Text(MODEL_NUMBER)),
          CreateService(gattsIf, HEART_RATE_SERVICE, SERVICE_NUM_HANDLE)];
    assert c2 == [StartService(rateHandle),
          AddChar(rateHandle, HEART_RATE_MEASUREMENT_CHAR, PERM_READ, PROP_READ + PROP_NOTIFY, Bytes(HEART_RATE_MEASUREMENT))]
          + AdvertisingCommands([]);
    assert RunCommands(s3, [], []) == [];
    assert RunCommands(s2, [i2], []) == c2;
    assert RunCommands(s1, [i1, i2], []) == c1 + c2;
    assert RunCommands(s0, inputs, []) == c0 + (c1 + c2);
    AdvertisingStartsIffConfigured([]);
  }
}
