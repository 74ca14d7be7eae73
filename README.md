# IRK enrollment component — a Dafny model

The `irk_enrollment` ESPHome component collects the Identity Resolving Key
(IRK) of a phone that bonds with an ESP32. It registers GAP and GATTS
callbacks and a GATTS application. It sets a security policy that asks for
secure connections, MITM protection, bonding and identity-key distribution.
It creates a Device Information service and then a Heart Rate service, and
it advertises. On every poll it drains the bond list: each bond's 16-byte
IRK is formatted as 32 lower-case hex digits, last byte first. The text is
published to the `latest_irk` text sensor when it differs from what the
sensor shows. The peer is then disconnected and its bond removed.

The model has these modules:

- `HexFormat` (`hex_format.dfy`): `hexStr` as a loop over a character
  buffer (`HexStr`), proved equal to a recursive reference definition
  (`HexReversed`). The properties of the format are lemmas about that
  definition: its length, its characters, the digits at each position, a
  parser that inverts it, and injectivity.
- `Ble` (`ble_stack.dfy`): the stack as the component sees it. The class
  `BleStack` holds the bond list, the trace of commands sent so far and a
  script of the statuses the next commands will get. Each command uses up
  one status. When the script is used up, every call succeeds. A bond
  removal the stack accepts deletes that address's bonds.
- `BringUp` (`bring_up.dfy`): the command sequences of `setup`,
  `setup_ble_security`, `setup_advertising` and `handle_gap_event`. Each is
  a function of the status script.
- `BondDrain` (`bond_drain.dfy`): what one drain of a bond list issues,
  publishes and leaves in the stack (`DrainAll`, one `DrainOne` per bond),
  and the properties of a drain.
- `GattsMachine` (`gatts_machine.dfy`): `handle_gatts_event` as a state
  machine. Its state is the handler's four function-local statics
  (`GattsState`). `StepCommands` gives the commands one call issues and
  `NextState` gives the statics after it. `RunCommands` and `RunState`
  cover a sequence of events.
- `IrkEnrollment` (`irk_enrollment.dfy`): the class
  `IrkEnrollmentComponent`. It holds the stack, the sensor and the statics,
  and its methods call the stack one command at a time. Each method is
  proved to issue exactly what its specification function gives and to
  leave the state that function describes.

## Model

| member | source | states |
|---|---|---|
| HexFormat.HexStr | custom_components/irk_enrollment/irk_enrollment.cpp:29-36 | The string the loop fills in is `HexReversed` of the first `len` bytes. |
| HexFormat.HexReversedAt | custom_components/irk_enrollment/irk_enrollment.cpp:31-33 | Characters 2i and 2i+1 are the hex digits of the high and low nibble of byte len-1-i. |
| HexFormat.HexStartsWithLastByte | custom_components/irk_enrollment/irk_enrollment.cpp:32-33 | The output starts with the two digits of the last byte. |
| HexFormat.HexReversedIsLowerHex | custom_components/irk_enrollment/irk_enrollment.cpp:26-33 | Every output character is one of `0-9a-f`. |
| HexFormat.DigitValueOfDigit | custom_components/irk_enrollment/irk_enrollment.cpp:26-27 | Reading back a `hexmap` digit gives its index. |
| HexFormat.NibblesRebuildByte | custom_components/irk_enrollment/irk_enrollment.cpp:32-33 | The `& 0xF0 >> 4` and `& 0x0F` nibbles rebuild the byte, so no bit is lost. |
| HexFormat.ParseHexReversedRoundTrip | custom_components/irk_enrollment/irk_enrollment.cpp:29-36 | Parsing the formatted text gives back the original bytes. |
| HexFormat.HexReversedInjective | custom_components/irk_enrollment/irk_enrollment.cpp:29-36 | Two byte strings format to the same text if and only if they are equal. |
| Ble.BleStack.Call | custom_components/irk_enrollment/irk_enrollment.cpp:220-221 | A command is appended to the trace and takes the next status. An accepted bond removal deletes every bond of that address. |
| Ble.BleStack.GetBondDeviceNum | custom_components/irk_enrollment/irk_enrollment.cpp:193 | The count returned is the number of bonds held. |
| Ble.BleStack.GetBondDeviceList | custom_components/irk_enrollment/irk_enrollment.cpp:203-204 | Copies min(room, bonds) records from the front of the bond list and reports how many. The rest of the array is untouched. |
| Ble.WithoutAddr | custom_components/irk_enrollment/irk_enrollment.cpp:221 | After a removal, a bond is kept if and only if it was held and has another address. |
| BringUp.SetupStopsAtFirstFailure | custom_components/irk_enrollment/irk_enrollment.cpp:46-66 | Setup issues the registrations in order. It stops at the first failed one. The security policy is applied if and only if all three succeed. |
| BringUp.SecurityPolicy | custom_components/irk_enrollment/irk_enrollment.cpp:160-180 | Five parameter writes. The auth mode has the bond, MITM and secure-connections bits. I/O capability is none and the key size is 16. Both key masks have the encryption and identity bits. |
| BringUp.AdvertisingStartsIffConfigured | custom_components/irk_enrollment/irk_enrollment.cpp:120-157 | Advertising starts, exactly once, if and only if both payload configurations succeed. A failed configuration is the last command issued. |
| BringUp.GapAcceptsSecurityRequests | custom_components/irk_enrollment/irk_enrollment.cpp:246-271 | Only a security request issues a command: an accept for that peer. |
| BondDrain.DrainAllIsDrain | custom_components/irk_enrollment/irk_enrollment.cpp:206-225 | A bond-by-bond drain appends the disconnect and removal pairs of the list in order and uses two statuses per bond. It removes the accepted addresses, and leaves the sensor and its publications as the per-bond publish rule gives. |
| BondDrain.EmptyDrainIsNoOp | custom_components/irk_enrollment/irk_enrollment.cpp:198-201 | With no bonds nothing is issued, published or removed. |
| BondDrain.DrainCommandsAt | custom_components/irk_enrollment/irk_enrollment.cpp:206-221 | Commands 2i and 2i+1 are the disconnect and the bond removal of the i-th bond. |
| BondDrain.EveryBondRemoved | custom_components/irk_enrollment/irk_enrollment.cpp:206-221 | Every listed bond gets both a disconnect and a removal. |
| BondDrain.SensorPresenceKept | custom_components/irk_enrollment/irk_enrollment.cpp:216 | A missing sensor stays missing and never gets a publish. A present one stays present. |
| BondDrain.SensorShowsLastIrk | custom_components/irk_enrollment/irk_enrollment.cpp:213-218 | After a non-empty drain, a sensor shows the IRK text of the last bond of the list. |
| BondDrain.PublicationsAreListedIrks | custom_components/irk_enrollment/irk_enrollment.cpp:213-218 | There is at most one publish per bond, and each published value is the IRK text of a listed bond. |
| BondDrain.ChangeDetection | custom_components/irk_enrollment/irk_enrollment.cpp:216-218 | A bond publishes only when its text differs from the sensor's state, and then exactly once. |
| BondDrain.PublishIffNewKey | custom_components/irk_enrollment/irk_enrollment.cpp:213-218 | A bond publishes if and only if its IRK is a different key from the one shown. |
| BondDrain.BondsAfterDrainMembers | custom_components/irk_enrollment/irk_enrollment.cpp:220-221 | A bond survives the drain if and only if it was held and no accepted removal named its address. |
| BondDrain.DrainEmptiesBondList | custom_components/irk_enrollment/irk_enrollment.cpp:192-225 | If the stack accepts every removal, draining its own list leaves it with no bonds. |
| GattsMachine.StepHeartRateRequests | custom_components/irk_enrollment/irk_enrollment.cpp:401-419 | One event requests the Heart Rate service if and only if it is a successful 0x180A creation and the flag is clear. The flag then records the request. |
| GattsMachine.RunHeartRateRequests | custom_components/irk_enrollment/irk_enrollment.cpp:276-279 | Over any event sequence, the flag is never cleared. The number of requests made equals the flag's change. |
| GattsMachine.HeartRateRequestedAtMostOnce | custom_components/irk_enrollment/irk_enrollment.cpp:402-411 | From the initial statics, the Heart Rate service is requested at most once over any event sequence. |
| GattsMachine.FailedEventIssuesNothing | custom_components/irk_enrollment/irk_enrollment.cpp:282-305 | A REG or CREATE event with a failed status issues nothing and leaves the statics alone. |
| GattsMachine.ConnectionEvents | custom_components/irk_enrollment/irk_enrollment.cpp:424-432 | CONNECT asks for MITM encryption of that peer. DISCONNECT restarts advertising. Neither changes the statics. |
| GattsMachine.AdvertisingEntryPoints | custom_components/irk_enrollment/irk_enrollment.cpp:361-419 | Advertising is configured if and only if the Heart Rate service was started, the Heart Rate request was refused, or a peer disconnected. It never starts without being configured. |
| GattsMachine.BringUpScenario | custom_components/irk_enrollment/irk_enrollment.cpp:282-399 | When every call succeeds, REG, then the 0x180A CREATE, then the 0x180D CREATE issue the full service bring-up followed by advertising, in order. |
| IrkEnrollment.IrkEnrollmentComponent.constructor | custom_components/irk_enrollment/irk_enrollment.cpp:276-279 | The statics start as no interface, handles 0 and the flag clear. |
| IrkEnrollment.IrkEnrollmentComponent.Setup | custom_components/irk_enrollment/irk_enrollment.cpp:38-73 | Issues exactly `SetupCommands` of the status script and leaves the bonds alone. |
| IrkEnrollment.IrkEnrollmentComponent.SetupBleSecurity | custom_components/irk_enrollment/irk_enrollment.cpp:160-180 | Issues the five security writes whatever their statuses. |
| IrkEnrollment.IrkEnrollmentComponent.SetupAdvertising | custom_components/irk_enrollment/irk_enrollment.cpp:88-158 | Issues exactly `AdvertisingCommands` of the status script. |
| IrkEnrollment.IrkEnrollmentComponent.ProcessBondedDevices | custom_components/irk_enrollment/irk_enrollment.cpp:192-226 | The stack, sensor and publications end as `DrainAll` of the bonds held at the start, and the statics are unchanged. |
| IrkEnrollment.IrkEnrollmentComponent.DrainBonds | custom_components/irk_enrollment/irk_enrollment.cpp:206-225 | The loop over the fetched array drains its bonds in array order. |
| IrkEnrollment.IrkEnrollmentComponent.ReportAndRemove | custom_components/irk_enrollment/irk_enrollment.cpp:213-221 | One loop iteration is `DrainOne`: format the IRK, publish it if new, then disconnect and remove. |
| IrkEnrollment.IrkEnrollmentComponent.HandleGapEvent | custom_components/irk_enrollment/irk_enrollment.cpp:246-271 | Issues exactly `GapCommands` of the event. |
| IrkEnrollment.IrkEnrollmentComponent.StartDeviceInfoService | custom_components/irk_enrollment/irk_enrollment.cpp:312-360 | Starts 0x180A and, if the start is accepted, adds Manufacturer Name and Model Number. |
| IrkEnrollment.IrkEnrollmentComponent.StartHeartRateService | custom_components/irk_enrollment/irk_enrollment.cpp:367-398 | Starts 0x180D and, if the start is accepted, adds Heart Rate Measurement and sets up advertising. |
| IrkEnrollment.IrkEnrollmentComponent.RequestHeartRateService | custom_components/irk_enrollment/irk_enrollment.cpp:411-418 | Requests 0x180D and falls back to advertising if the request is refused. |
| IrkEnrollment.IrkEnrollmentComponent.HandleGattsEvent | custom_components/irk_enrollment/irk_enrollment.cpp:273-438 | The statics become `NextState` and the stack receives exactly `StepCommands` of the old statics and the event. The sensor is untouched. |
| IrkEnrollment.IrkEnrollmentComponent.HandleCreateEvent | custom_components/irk_enrollment/irk_enrollment.cpp:303-422 | The CREATE branch: `NextState` and `CreateCommands`. |
| IrkEnrollment.IrkEnrollmentComponent.StartCreatedService | custom_components/irk_enrollment/irk_enrollment.cpp:306-399 | Records the created service's handle in its static and starts that service. Other UUIDs are ignored. |

## Left out

- Logging (`ESP_LOG*`), the BD_ADDR log formatting and the bond-count warning only write to the log.
- `delay(200)` at the end of `setup` is a pause. There is no clock in the model.
- `dump_config`, `get_setup_priority` and the `instance_` callback trampolines have no effect on the stack or the sensor. The component object is called directly.
- `setup_gatt_server` issues no command; it only builds a UUID and logs.
- `loop` forwards to `process_bonded_devices`, which is modelled.
- The advertising and scan-response payload bytes are not modelled (appearance, manufacturer data, the 128-bit service UUID, flags). Only which payload is sent is recorded. Advertising parameters record the intervals and the connectable, any-scanner, any-initiator policy.
- The pairing cryptography, bond persistence and the radio belong to the stack and are outside the model. The stack is its bond list, its command trace and a status script.
- Events and polls are modelled as atomic; callbacks running concurrently with the poll are not modelled.
- Ble.BleStack.GetBondDeviceNum: returns the bond count as a natural number. A negative error return, which would size the bond array negatively in the source, is not modelled.
- Ble.BleStack.GetBondDeviceList: always succeeds. A failing list call that leaves the array unfilled is not modelled.
- HexFormat.HexStr: requires `len` to be at most the buffer length. The source has no such check, and the only caller passes 16 for a 16-byte key.
- The `latest_irk` text sensor is modelled as its current state (`None` when not configured) plus the log of values published to it. Its frontend callbacks are outside the model.
- The Python configuration schema and the header file only declare and wire up what is modelled here, and are not part of this model.
