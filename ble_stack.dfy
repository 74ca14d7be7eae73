/**
 * The BLE stack as the component sees it: the commands it can be sent, the
 * statuses it answers with, and the bond records it holds. The stack itself
 * (radio, pairing cryptography, bond persistence) is outside the model; it is
 * represented by the trace of commands it was sent, the statuses it will give
 * them, and the effect a successful bond removal has on its bond list.
 */
module Ble {
  import opened HexFormat

  /** A 6-byte device address (`esp_bd_addr_t`). */
  type Addr = a: seq<byte> | |a| == 6 witness [0, 0, 0, 0, 0, 0]

  /** A 16-byte Identity Resolving Key as stored in a bond record. */
  type Irk = k: seq<byte> | |k| == 16 witness seq(16, _ => 0)

  /** `uint16_t` attribute handle. */
  type Handle = n: nat | n < 0x1_0000

  /** `esp_gatt_if_t`, an 8-bit GATT interface number. */
  type GattIf = n: nat | n < 0x100

  /** A 16-bit UUID. */
  type Uuid16 = n: nat | n < 0x1_0000

  /** One bonded peer: its address and the IRK it distributed. */
  datatype Bond = Bond(bdAddr: Addr, irk: Irk)

  /** The status a stack call returns (`esp_err_t`, or a GATT status carried by an event). */
  datatype Status = Ok | Failed(code: int)

  const GATT_IF_NONE: GattIf := 0xFF

  const DEVICE_INFO_SERVICE: Uuid16 := 0x180A
  const HEART_RATE_SERVICE: Uuid16 := 0x180D
  const MANUFACTURER_NAME_CHAR: Uuid16 := 0x2A29
  const MODEL_NUMBER_CHAR: Uuid16 := 0x2A24
  const HEART_RATE_MEASUREMENT_CHAR: Uuid16 := 0x2A37

  /** Handles requested for each created service. */
  const SERVICE_NUM_HANDLE: nat := 10

  /** `ESP_GATT_PERM_READ`, `ESP_GATT_CHAR_PROP_BIT_READ`, `ESP_GATT_CHAR_PROP_BIT_NOTIFY`. */
  const PERM_READ: nat := 0x01
  const PROP_READ: nat := 0x02
  const PROP_NOTIFY: nat := 0x10

  /** The security-manager parameters `esp_ble_gap_set_security_param` can set. */
  datatype SecurityParam = AuthenReqMode | IoCapMode | MaxKeySize | SetInitKey | SetRspKey

  /** The two payloads `esp_ble_gap_config_adv_data` is given: their bytes are not modelled. */
  datatype AdvPayload = AdvertisingData | ScanResponseData

  /** Advertising parameters: intervals in 0.625 ms units; type, address type, channels and filter policy fixed. */
  datatype AdvParams = AdvParams(intervalMin: nat, intervalMax: nat, connectableUndirected: bool, allowScanAnyConnectAny: bool)

  /** Link encryption levels of `esp_ble_set_encryption`. */
  datatype EncryptLevel = Encrypt | EncryptNoMitm | EncryptMitm

  /** A characteristic's initial value. */
  datatype AttrValue = Text(text: string) | Bytes(bytes: seq<byte>)

  /** A command sent to the stack. */
  datatype Command =
    | GapRegisterCallback
    | GattsRegisterCallback
    | GattsAppRegister(appId: nat)
    | SetSecurityParam(param: SecurityParam, value: byte)
    | CreateService(gattsIf: GattIf, uuid: Uuid16, numHandle: nat)
    | StartService(serviceHandle: Handle)
    | AddChar(serviceHandle: Handle, charUuid: Uuid16, perm: nat, property: nat, charValue: AttrValue)
    | ConfigAdvData(payload: AdvPayload)
    | SetDeviceName(name: string)
    | StartAdvertising(params: AdvParams)
    | SecurityRsp(peer: Addr, accept: bool)
    | SetEncryption(peer: Addr, level: EncryptLevel)
    | Disconnect(peer: Addr)
    | RemoveBondDevice(peer: Addr)

  /** The status the stack gives the next command; once the script is used up every call succeeds. */
  function NextReply(replies: seq<Status>): Status {
    if replies == [] then Ok else replies[0]
  }

  /** The script left after n commands. */
  function Drop(replies: seq<Status>, n: nat): (r: seq<Status>)
    ensures |r| == if n <= |replies| then |replies| - n else 0
  {
    if n <= |replies| then replies[n..] else []
  }

  /** The status of the k-th command issued from now on. */
  function ReplyAt(replies: seq<Status>, k: nat): Status {
    NextReply(Drop(replies, k))
  }

  lemma DropDrop(replies: seq<Status>, m: nat, n: nat)
    ensures Drop(Drop(replies, m), n) == Drop(replies, m + n)
  {
  }

  /** The bond list after a successful remove of address a: every bond of a is gone, the rest keep their order. */
  function WithoutAddr(bonds: seq<Bond>, a: Addr): (r: seq<Bond>)
    ensures forall b :: b in r <==> b in bonds && b.bdAddr != a
    ensures |r| <= |bonds|
  {
    if bonds == [] then []
    else if bonds[0].bdAddr == a then WithoutAddr(bonds[1..], a)
    else [bonds[0]] + WithoutAddr(bonds[1..], a)
  }

  /** The stack: the bonds it holds, the commands it has been sent, the statuses it will answer with. */
  class BleStack {
    var bonds: seq<Bond>
    var trace: seq<Command>
    var replies: seq<Status>

    constructor (bonds: seq<Bond>, replies: seq<Status>)
      ensures this.bonds == bonds && this.replies == replies && trace == []
    {
      this.bonds := bonds;
      this.replies := replies;
      trace := [];
    }

    /** Sends one command; a bond removal the stack accepts deletes that address's bonds. */
    method Call(c: Command) returns (st: Status)
      modifies this
      ensures trace == old(trace) + [c]
      ensures st == NextReply(old(replies)) && replies == Drop(old(replies), 1)
      ensures bonds == if c.RemoveBondDevice? && st.Ok? then WithoutAddr(old(bonds), c.peer) else old(bonds)
    {
      st := NextReply(replies);
      replies := Drop(replies, 1);
      trace := trace + [c];
      if c.RemoveBondDevice? && st.Ok? {
        bonds := WithoutAddr(bonds, c.peer);
      }
    }

    /** `esp_ble_get_bond_device_num`. */
    method GetBondDeviceNum() returns (n: nat)
      ensures n == |bonds|
    {
      n := |bonds|;
    }

    /**
     * `esp_ble_get_bond_device_list`: devNum in is the room in devList, the
     * number returned is how many records were copied, from the front.
     */
    method GetBondDeviceList(devNum: nat, devList: array<Bond>) returns (filled: nat)
      requires devNum <= devList.Length
      modifies devList
      ensures filled == if devNum < |bonds| then devNum else |bonds|
      ensures devList[..filled] == bonds[..filled]
      ensures devList[filled..] == old(devList[filled..])
    {
      filled := if devNum < |bonds| then devNum else |bonds|;
      for i := 0 to filled
        invariant devList[..i] == bonds[..i]
        invariant devList[filled..] == old(devList[filled..])
      {
        devList[i] := bonds[i];
      }
    }
  }
}
