/**
 * The component: its setup, its per-poll bond drain and its two stack
 * callbacks, each issuing its commands to the stack one call at a time.
 * Every method is proved to issue exactly the commands its specification
 * function in BringUp, BondDrain or GattsMachine gives for the statuses the
 * stack answers with, and to leave the rest of the state as that function
 * says.
 */
module IrkEnrollment {
  import opened Wrappers
  import opened HexFormat
  import opened Ble
  import opened BringUp
  import opened BondDrain
  import opened GattsMachine

  class IrkEnrollmentComponent {
    /** The stack the component drives. */
    const stack: BleStack

    /** The `latest_irk` text sensor: None when none is configured, otherwise the state it shows. */
    var latestIrk: Option<string>

    /** Every value pushed to the sensor, in order. */
    var publications: seq<string>

    /** The GATTS handler's statics. */
    var deviceInfoIf: GattIf
    var deviceInfoServiceHandle: Handle
    var heartRateServiceHandle: Handle
    var heartRateServiceAdded: bool

    function Gatts(): GattsState
      reads this
    {
      GattsState(deviceInfoIf, deviceInfoServiceHandle, heartRateServiceHandle, heartRateServiceAdded)
    }

    /** What the bond drain acts on. */
    function DrainState(): Drain
      reads this, stack
    {
      Drain(stack.trace, stack.replies, stack.bonds, latestIrk, publications)
    }

    constructor (stack: BleStack, latestIrk: Option<string>)
      ensures this.stack == stack && this.latestIrk == latestIrk && publications == []
      ensures Gatts() == INITIAL
    {
      this.stack := stack;
      this.latestIrk := latestIrk;
      publications := [];
      deviceInfoIf := GATT_IF_NONE;
      deviceInfoServiceHandle := 0;
      heartRateServiceHandle := 0;
      heartRateServiceAdded := false;
    }

    /** `setup`: registers the callbacks and the application, stopping at the first failure, then applies the security policy. */
    method Setup()
      modifies stack
      ensures stack.trace == old(stack.trace) + SetupCommands(old(stack.replies))
      ensures stack.replies == Drop(old(stack.replies), |SetupCommands(old(stack.replies))|)
      ensures stack.bonds == old(stack.bonds)
    {
      ghost var replies := stack.replies;
      var gapRet := stack.Call(GapRegisterCallback);
      if !gapRet.Ok? {
        return;
      }
      var gattsRet := stack.Call(GattsRegisterCallback);
      DropDrop(replies, 1, 1);
      if !gattsRet.Ok? {
        return;
      }
      var appRet := stack.Call(GattsAppRegister(APP_ID));
      DropDrop(replies, 2, 1);
      if !appRet.Ok? {
        return;
      }
      SetupBleSecurity();
      DropDrop(replies, 3, 5);
    }

    /** `setup_ble_security`: the five security parameters, statuses ignored. */
    method SetupBleSecurity()
      modifies stack
      ensures stack.trace == old(stack.trace) + SECURITY_COMMANDS
      ensures stack.replies == Drop(old(stack.replies), |SECURITY_COMMANDS|)
      ensures stack.bonds == old(stack.bonds)
    {
      ghost var replies := stack.replies;
      var ret := stack.Call(SECURITY_COMMANDS[0]);
      ret := stack.Call(SECURITY_COMMANDS[1]);
      DropDrop(replies, 1, 1);
      ret := stack.Call(SECURITY_COMMANDS[2]);
      DropDrop(replies, 2, 1);
      ret := stack.Call(SECURITY_COMMANDS[3]);
      DropDrop(replies, 3, 1);
      ret := stack.Call(SECURITY_COMMANDS[4]);
      DropDrop(replies, 4, 1);
    }

    /** `setup_advertising`: both payloads, the device name, then the start; a failed payload configuration ends it. */
    method SetupAdvertising()
      modifies stack
      ensures stack.trace == old(stack.trace) + AdvertisingCommands(old(stack.replies))
      ensures stack.replies == Drop(old(stack.replies), |AdvertisingCommands(old(stack.replies))|)
      ensures stack.bonds == old(stack.bonds)
    {
      ghost var replies := stack.replies;
      var ret := stack.Call(ConfigAdvData(AdvertisingData));
      if !ret.Ok? {
        return;
      }
      ret := stack.Call(ConfigAdvData(ScanResponseData));
      DropDrop(replies, 1, 1);
      if !ret.Ok? {
        return;
      }
      var nameRet := stack.Call(SetDeviceName(DEVICE_NAME));
      DropDrop(replies, 2, 1);
      ret := stack.Call(StartAdvertising(ADV_PARAMS));
      DropDrop(replies, 3, 1);
    }

    /** `process_bonded_devices`: reports and removes every bond the stack holds, in list order. */
    method ProcessBondedDevices()
      modifies this, stack
      ensures DrainState() == DrainAll(old(DrainState()), old(stack.bonds))
      ensures Gatts() == old(Gatts())
    {
      var devNum := stack.GetBondDeviceNum();
      if devNum == 0 {
        return;
      }
      var bondDevs := new Bond[devNum](_ => Bond([0, 0, 0, 0, 0, 0], seq(16, _ => 0)));
      devNum := stack.GetBondDeviceList(devNum, bondDevs);
      DrainBonds(bondDevs);
    }

    /** The drain loop over the fetched copy of the bond list. */
    method DrainBonds(bondDevs: array<Bond>)
      requires bondDevs[..] == stack.bonds
      modifies this, stack
      ensures DrainState() == DrainAll(old(DrainState()), old(bondDevs[..]))
      ensures Gatts() == old(Gatts())
    {
      ghost var d0 := DrainState();
      for i := 0 to bondDevs.Length
        invariant DrainState() == DrainAll(d0, bondDevs[..i])
        invariant Gatts() == old(Gatts())
      {
        ReportAndRemove(bondDevs[i]);
        assert bondDevs[..i + 1][..i] == bondDevs[..i];
      }
      assert bondDevs[..bondDevs.Length] == bondDevs[..];
    }

    /** The body of the drain loop for one bond: format and publish its IRK, then disconnect and unbond its peer. */
    method ReportAndRemove(bond: Bond)
      modifies this, stack
      ensures DrainState() == DrainOne(old(DrainState()), bond)
      ensures Gatts() == old(Gatts())
    {
      ghost var replies := stack.replies;
      var irkStr := HexStr(bond.irk, 16);
      assert bond.irk[..16] == bond.irk;
      if latestIrk.Some? && latestIrk.value != irkStr {
        latestIrk := Some(irkStr);
        publications := publications + [irkStr];
      }
      var disconnectRet := stack.Call(Disconnect(bond.bdAddr));
      var removeRet := stack.Call(RemoveBondDevice(bond.bdAddr));
      DropDrop(replies, 1, 1);
    }

    /** `handle_gap_event`: accepts every security request; other events are only logged. */
    method HandleGapEvent(event: GapEvent)
      modifies stack
      ensures stack.trace == old(stack.trace) + GapCommands(event)
      ensures stack.replies == Drop(old(stack.replies), |GapCommands(event)|)
      ensures stack.bonds == old(stack.bonds)
    {
      match event
      case SecurityRequest(peer) =>
        var ret := stack.Call(SecurityRsp(peer, true));
      case _ =>
    }

    /** The Device Information service was created: start it and, if that succeeds, add its two characteristics. */
    method StartDeviceInfoService(handle: Handle)
      modifies stack
      ensures stack.trace == old(stack.trace) + StartDeviceInfoCommands(handle, old(stack.replies))
      ensures stack.replies == Drop(old(stack.replies), |StartDeviceInfoCommands(handle, old(stack.replies))|)
      ensures stack.bonds == old(stack.bonds)
    {
      ghost var replies := stack.replies;
      var ret := stack.Call(StartService(handle));
      if ret.Ok? {
        ret := stack.Call(AddChar(handle, MANUFACTURER_NAME_CHAR, PERM_READ, PROP_READ, Text(MANUFACTURER_NAME)));
        DropDrop(replies, 1, 1);
        ret := stack.Call(AddChar(handle, MODEL_NUMBER_CHAR, PERM_READ, PROP_READ, Text(MODEL_NUMBER)));
        DropDrop(replies, 2, 1);
      }
    }

    /** The Heart Rate service was created: start it and, if that succeeds, add its characteristic and advertise. */
    method StartHeartRateService(handle: Handle)
      modifies stack
      ensures stack.trace == old(stack.trace) + StartHeartRateCommands(handle, old(stack.replies))
      ensures stack.replies == Drop(old(stack.replies), |StartHeartRateCommands(handle, old(stack.replies))|)
      ensures stack.bonds == old(stack.bonds)
    {
      ghost var replies := stack.replies;
      var ret := stack.Call(StartService(handle));
      if ret.Ok? {
        ret := stack.Call(AddChar(handle, HEART_RATE_MEASUREMENT_CHAR, PERM_READ, PROP_READ + PROP_NOTIFY, Bytes(HEART_RATE_MEASUREMENT)));
        DropDrop(replies, 1, 1);
        SetupAdvertising();
        DropDrop(replies, 2, |AdvertisingCommands(Drop(replies, 2))|);
      }
    }

    /** Request the Heart Rate service; advertise anyway if the request is refused. */
    method RequestHeartRateService(gattsIf: GattIf)
      modifies stack
      ensures stack.trace == old(stack.trace) + RequestHeartRateCommands(gattsIf, old(stack.replies))
      ensures stack.replies == Drop(old(stack.replies), |RequestHeartRateCommands(gattsIf, old(stack.replies))|)
      ensures stack.bonds == old(stack.bonds)
    {
      ghost var replies := stack.replies;
      var ret := stack.Call(CreateService(gattsIf, HEART_RATE_SERVICE, SERVICE_NUM_HANDLE));
      if !ret.Ok? {
        SetupAdvertising();
        DropDrop(replies, 1, |AdvertisingCommands(Drop(replies, 1))|);
      }
    }

    /** `handle_gatts_event`: one step of the GATT server bring-up, over the statics kept in this object. */
    method HandleGattsEvent(event: GattsEvent, gattsIf: GattIf)
      modifies this, stack
      ensures Gatts() == NextState(old(Gatts()), GattsInput(event, gattsIf))
      ensures stack.trace == old(stack.trace) + StepCommands(old(Gatts()), GattsInput(event, gattsIf), old(stack.replies))
      ensures stack.replies == Drop(old(stack.replies), |StepCommands(old(Gatts()), GattsInput(event, gattsIf), old(stack.replies))|)
      ensures stack.bonds == old(stack.bonds)
      ensures latestIrk == old(latestIrk) && publications == old(publications)
    {
      match event
      case RegEvt(status) =>
        if status.Ok? {
          deviceInfoIf := gattsIf;
          var ret := stack.Call(CreateService(gattsIf, DEVICE_INFO_SERVICE, SERVICE_NUM_HANDLE));
        }
      case CreateEvt(_, _, _) =>
        HandleCreateEvent(event, gattsIf);
      case ConnectEvt(remoteBda) =>
        var ret := stack.Call(SetEncryption(remoteBda, EncryptMitm));
      case DisconnectEvt =>
        SetupAdvertising();
      case OtherGattsEvent(_) =>
    }

    /** The CREATE branch of `handle_gatts_event`. */
    method HandleCreateEvent(event: GattsEvent, gattsIf: GattIf)
      requires event.CreateEvt?
      modifies this, stack
      ensures Gatts() == NextState(old(Gatts()), GattsInput(event, gattsIf))
      ensures stack.trace == old(stack.trace) + CreateCommands(old(Gatts()), event, gattsIf, old(stack.replies))
      ensures stack.replies == Drop(old(stack.replies), |CreateCommands(old(Gatts()), event, gattsIf, old(stack.replies))|)
      ensures stack.bonds == old(stack.bonds)
      ensures latestIrk == old(latestIrk) && publications == old(publications)
    {
      if !event.status.Ok? {
        return;
      }
      ghost var replies := stack.replies;
      ghost var started := StartCommands(event.uuid, event.serviceHandle, replies);
      StartCreatedService(event.uuid, event.serviceHandle);
      if event.uuid == DEVICE_INFO_SERVICE && !heartRateServiceAdded {
        heartRateServiceAdded := true;
        RequestHeartRateService(gattsIf);
        DropDrop(replies, |started|, |RequestHeartRateCommands(gattsIf, Drop(replies, |started|))|);
      }
    }

    /** A service was created: remember its handle and start it. */
    method StartCreatedService(uuid: Uuid16, handle: Handle)
      modifies this, stack
      ensures Gatts() ==
        if uuid == DEVICE_INFO_SERVICE then old(Gatts()).(deviceInfoServiceHandle := handle)
        else if uuid == HEART_RATE_SERVICE then old(Gatts()).(heartRateServiceHandle := handle)
        else old(Gatts())
      ensures stack.trace == old(stack.trace) + StartCommands(uuid, handle, old(stack.replies))
      ensures stack.replies == Drop(old(stack.replies), |StartCommands(uuid, handle, old(stack.replies))|)
      ensures stack.bonds == old(stack.bonds)
      ensures latestIrk == old(latestIrk) && publications == old(publications)
    {
      if uuid == DEVICE_INFO_SERVICE {
        deviceInfoServiceHandle := handle;
        StartDeviceInfoService(handle);
      } else if uuid == HEART_RATE_SERVICE {
        heartRateServiceHandle := handle;
        StartHeartRateService(handle);
      }
    }
  }
}
