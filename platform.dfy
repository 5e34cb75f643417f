/**
  An abstract view of the CoreBluetooth platform the two controllers are built on.
  The platform is not modelled: a controller sees it only through the records below
  (the values the platform hands to a callback or returns from a lookup) and talks to
  it only by issuing requests, which the controllers append to a trace.
 */
module Platform {
  import opened Wrappers

  newtype byte = x: int | 0 <= x < 256

  /** Identifiers: peripheral and central UUIDs, service and characteristic CBUUIDs. */
  type Uuid = string

  /** CBManagerState. */
  datatype ManagerState = Unknown | Resetting | Unsupported | Unauthorized | PoweredOff | PoweredOn

  /** CBPeripheralState. */
  datatype PeripheralState = Disconnected | Connecting | Connected | Disconnecting

  /** A remote characteristic as the central sees it. */
  datatype Characteristic = Characteristic(uuid: Uuid, value: Option<seq<byte>>, isNotifying: bool)

  /** A remote service; `characteristics` is absent until they have been discovered. */
  datatype Service = Service(uuid: Uuid, characteristics: Option<seq<Characteristic>>)

  /** A peripheral handle; `services` is absent until they have been discovered. */
  datatype Peripheral = Peripheral(identifier: Uuid, state: PeripheralState, services: Option<seq<Service>>)

  /** An error object delivered by the platform; its contents are irrelevant to the controllers. */
  datatype PlatformError = PlatformError(code: int)

  /** A remote central as the peripheral side sees it (CBCentral). */
  datatype CentralRef = CentralRef(identifier: Uuid, maximumUpdateValueLength: int)

  /** A read or write request from a remote central (CBATTRequest). */
  datatype AttRequest = AttRequest(central: Uuid, characteristic: Uuid, offset: nat, value: Option<seq<byte>>)

  /** A local characteristic handed back by state restoration; `isMutable` is the `as? CBMutableCharacteristic` test. */
  datatype LocalCharacteristic = LocalCharacteristic(isMutable: bool, subscribedCentrals: Option<seq<CentralRef>>)

  /** A local service handed back by state restoration. */
  datatype LocalService = LocalService(characteristics: Option<seq<LocalCharacteristic>>)

  /** A call a controller makes into the platform. */
  datatype Request =
    | CreateManager(showPowerAlert: bool)
    | RetrievePeripherals(identifiers: seq<Uuid>)
    | Connect(peripheral: Uuid, enableAutoReconnect: bool)
    | CancelConnection(peripheral: Uuid)
    | DiscoverServices(peripheral: Uuid, serviceUuids: seq<Uuid>)
    | DiscoverCharacteristics(peripheral: Uuid, characteristicUuids: seq<Uuid>, service: Uuid)
    | SetNotifyValue(peripheral: Uuid, enabled: bool, characteristic: Uuid)
    | ReadValue(peripheral: Uuid, characteristic: Uuid)
    | WriteValue(peripheral: Uuid, data: seq<byte>, characteristic: Uuid, withResponse: bool)
    | AddService(service: Uuid)
    | StartAdvertising(localName: string, serviceUuids: seq<Uuid>)
    | StopAdvertising
    | UpdateValue(data: seq<byte>, characteristic: Uuid)
    | Respond(request: AttRequest, success: bool)

  /** Swift's `first(where:)`: the earliest element satisfying `p`, if any. */
  function FirstWhere<T>(s: seq<T>, p: T -> bool): (r: Option<T>)
    ensures r.None? <==> forall i :: 0 <= i < |s| ==> !p(s[i])
    ensures r.Some? ==> r.value in s && p(r.value)
    ensures r.Some? ==> exists k :: 0 <= k < |s| && s[k] == r.value && forall j :: 0 <= j < k ==> !p(s[j])
  {
    if s == [] then None
    else if p(s[0]) then Some(s[0])
    else
      var r := FirstWhere(s[1..], p);
      assert r.Some? ==> exists k :: 0 <= k < |s| && s[k] == r.value && forall j :: 0 <= j < k ==> !p(s[j]) by {
        if r.Some? {
          var k :| 0 <= k < |s[1..]| && s[1..][k] == r.value && forall j :: 0 <= j < k ==> !p(s[1..][j]);
          assert s[k + 1] == r.value;
          forall j | 0 <= j < k + 1 ensures !p(s[j]) {
            if j > 0 { assert s[j] == s[1..][j - 1]; }
          }
        }
      }
      r
  }
}
