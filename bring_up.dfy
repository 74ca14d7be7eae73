/**
 * The straight-line command sequences: component setup, the security
 * policy, advertising (re)start, and the GAP event handler. Each is given
 * as the commands it issues when the stack answers with the statuses in
 * `replies`, the k-th status belonging to the k-th command issued.
 */
module BringUp {
  import opened HexFormat
  import opened Ble

  /** Values from the ESP-IDF GAP API header. */
  const ESP_LE_AUTH_BOND: byte := 0x01
  const ESP_LE_AUTH_REQ_MITM: byte := 0x04
  const ESP_LE_AUTH_REQ_SC_ONLY: byte := 0x08
  const ESP_LE_AUTH_REQ_SC_MITM_BOND: byte := 0x0D
  const ESP_IO_CAP_NONE: byte := 0x03
  const ESP_BLE_ENC_KEY_MASK: byte := 0x01
  const ESP_BLE_ID_KEY_MASK: byte := 0x02
  const MAX_KEY_SIZE: byte := 16

  /** The GATTS application id registered at setup. */
  const APP_ID: nat := 0

  const DEVICE_NAME: string := "ESPHome IRK Collector"

  /** 0x20 and 0x40 units of 0.625 ms: 20 to 40 ms, connectable undirected, any scanner, any initiator. */
  const ADV_PARAMS: AdvParams := AdvParams(0x20, 0x40, true, true)

  /** The three registrations `setup` performs, in order. */
  const REGISTRATIONS: seq<Command> := [GapRegisterCallback, GattsRegisterCallback, GattsAppRegister(APP_ID)]

  /** `setup_ble_security`: five parameter writes whose statuses are ignored. */
  const SECURITY_COMMANDS: seq<Command> := [
    SetSecurityParam(AuthenReqMode, ESP_LE_AUTH_REQ_SC_MITM_BOND),
    SetSecurityParam(IoCapMode, ESP_IO_CAP_NONE),
    SetSecurityParam(MaxKeySize, MAX_KEY_SIZE),
    SetSecurityParam(SetInitKey, ESP_BLE_ENC_KEY_MASK | ESP_BLE_ID_KEY_MASK),
    SetSecurityParam(SetRspKey, ESP_BLE_ENC_KEY_MASK | ESP_BLE_ID_KEY_MASK)
  ]

  /** `setup`: the registrations up to and including the first one that fails; the security policy only after all three succeed. */
  function SetupCommands(replies: seq<Status>): seq<Command> {
    if !ReplyAt(replies, 0).Ok? then REGISTRATIONS[..1]
    else if !ReplyAt(replies, 1).Ok? then REGISTRATIONS[..2]
    else if !ReplyAt(replies, 2).Ok? then REGISTRATIONS
    else REGISTRATIONS + SECURITY_COMMANDS
  }

  /** `setup_advertising`: advertising data, scan response, device name, start; it gives up after a failed data configuration. */
  function AdvertisingCommands(replies: seq<Status>): seq<Command> {
    if !ReplyAt(replies, 0).Ok? then [ConfigAdvData(AdvertisingData)]
    else if !ReplyAt(replies, 1).Ok? then [ConfigAdvData(AdvertisingData), ConfigAdvData(ScanResponseData)]
    else [ConfigAdvData(AdvertisingData), ConfigAdvData(ScanResponseData), SetDeviceName(DEVICE_NAME), StartAdvertising(ADV_PARAMS)]
  }

  /** The GAP events the handler distinguishes. */
  datatype GapEvent =
    | AdvDataSetComplete
    | AdvStartComplete
    | KeyEvt
    | SecurityRequest(peer: Addr)
    | AuthComplete(success: bool)
    | OtherGapEvent(code: nat)

  /** `handle_gap_event`: only a security request is answered, and always with an accept. */
  function GapCommands(event: GapEvent): seq<Command> {
    match event
    case SecurityRequest(peer) => [SecurityRsp(peer, true)]
    case _ => []
  }

  /** How many start-advertising commands a trace holds. */
  function AdvertisingStarts(cmds: seq<Command>): (n: nat)
    ensures n <= |cmds|
  {
    if cmds == [] then 0
    else (if cmds[0].StartAdvertising? then 1 else 0) + AdvertisingStarts(cmds[1..])
  }

  lemma {:induction false} AdvertisingStartsAppend(a: seq<Command>, b: seq<Command>)
    ensures AdvertisingStarts(a + b) == AdvertisingStarts(a) + AdvertisingStarts(b)
  {
    if a == [] {
      assert a + b == b;
    } else {
      assert (a + b)[1..] == a[1..] + b;
      AdvertisingStartsAppend(a[1..], b);
    }
  }

  lemma {:induction false} NoAdvertisingStarts(cmds: seq<Command>)
    requires forall k :: 0 <= k < |cmds| ==> !cmds[k].StartAdvertising?
    ensures AdvertisingStarts(cmds) == 0
  {
    if cmds != [] {
      NoAdvertisingStarts(cmds[1..]);
    }
  }

  /** Setup issues the registrations in order; it stops at the first failure and applies the policy only after all succeed. */
  lemma SetupStopsAtFirstFailure(replies: seq<Status>)
    ensures 1 <= |SetupCommands(replies)|
    ensures SetupCommands(replies)[..Min3(|SetupCommands(replies)|)] == REGISTRATIONS[..Min3(|SetupCommands(replies)|)]
    ensures forall k :: 0 <= k < Min3(|SetupCommands(replies)|) - 1 ==> ReplyAt(replies, k).Ok?
    ensures |SetupCommands(replies)| <= 3 ==> !ReplyAt(replies, |SetupCommands(replies)| - 1).Ok?
    ensures SetSecurityParam(AuthenReqMode, ESP_LE_AUTH_REQ_SC_MITM_BOND) in SetupCommands(replies)
            <==> ReplyAt(replies, 0).Ok? && ReplyAt(replies, 1).Ok? && ReplyAt(replies, 2).Ok?
    ensures SetupCommands(replies) == REGISTRATIONS + SECURITY_COMMANDS
            <==> ReplyAt(replies, 0).Ok? && ReplyAt(replies, 1).Ok? && ReplyAt(replies, 2).Ok?
  {
  }

  function Min3(n: nat): nat {
    if n < 3 then n else 3
  }

  /** The policy: secure connections with bonding and MITM protection, no I/O, 16-byte keys, encryption and identity keys both ways. */
  lemma SecurityPolicy()
    ensures |SECURITY_COMMANDS| == 5
    ensures forall c :: c in SECURITY_COMMANDS ==> c.SetSecurityParam?
    ensures SECURITY_COMMANDS[0].value & ESP_LE_AUTH_BOND != 0
    ensures SECURITY_COMMANDS[0].value & ESP_LE_AUTH_REQ_MITM != 0
    ensures SECURITY_COMMANDS[0].value & ESP_LE_AUTH_REQ_SC_ONLY != 0
    ensures SECURITY_COMMANDS[1].value == ESP_IO_CAP_NONE
    ensures SECURITY_COMMANDS[2].value == 16
    ensures forall k :: 3 <= k < 5 ==>
      SECURITY_COMMANDS[k].value & ESP_BLE_ENC_KEY_MASK != 0 && SECURITY_COMMANDS[k].value & ESP_BLE_ID_KEY_MASK != 0
  {
  }

  /**
   * Advertising starts exactly when both payload configurations succeed,
   * the start is the last command and happens at most once per call; a
   * failed configuration is the last command issued.
   */
  lemma AdvertisingStartsIffConfigured(replies: seq<Status>)
    ensures 1 <= |AdvertisingCommands(replies)| <= 4
    ensures AdvertisingCommands(replies)[0] == ConfigAdvData(AdvertisingData)
    ensures StartAdvertising(ADV_PARAMS) in AdvertisingCommands(replies) <==> ReplyAt(replies, 0).Ok? && ReplyAt(replies, 1).Ok?
    ensures AdvertisingStarts(AdvertisingCommands(replies)) == if ReplyAt(replies, 0).Ok? && ReplyAt(replies, 1).Ok? then 1 else 0
    ensures !ReplyAt(replies, 0).Ok? ==> AdvertisingCommands(replies) == [ConfigAdvData(AdvertisingData)]
    ensures ReplyAt(replies, 0).Ok? && !ReplyAt(replies, 1).Ok? ==>
      ConfigAdvData(ScanResponseData) in AdvertisingCommands(replies) && |AdvertisingCommands(replies)| == 2
  {
    var cmds := AdvertisingCommands(replies);
    if ReplyAt(replies, 0).Ok? && ReplyAt(replies, 1).Ok? {
      var start := [StartAdvertising(ADV_PARAMS)];
      var prefix := [ConfigAdvData(AdvertisingData), ConfigAdvData(ScanResponseData), SetDeviceName(DEVICE_NAME)];
      assert AdvertisingStarts(start) == 1 by { assert start[1..] == []; }
      NoAdvertisingStarts(prefix);
      assert cmds == prefix + start;
      AdvertisingStartsAppend(prefix, start);
    } else if ReplyAt(replies, 0).Ok? {
      assert cmds[1..][1..] == [];
    }
  }

  /** A security request is accepted and nothing else issues a command. */
  lemma GapAcceptsSecurityRequests(event: GapEvent)
    ensures GapCommands(event) != [] <==> event.SecurityRequest?
    ensures event.SecurityRequest? ==> GapCommands(event) == [SecurityRsp(event.peer, true)]
  {
  }
}
