/**
  The central-role controller of the demo app (`BluetoothCentralManager`). It owns
  the id of the paired counter accessory and an optional handle to it, mirrors the
  handle into its own observable fields, guards every user operation with typed
  errors and chains the next platform request from each delegate callback.
 */
module CentralManager {
  import opened Wrappers
  import opened Platform
  import CounterAccessory

  /** `BluetoothCentralError`. */
  datatype CentralError =
    | ManagerNotInitialized
    | BluetoothNotAvailable
    | CounterPeripheralNotDiscovered
    | CounterCharacteristicNotDiscovered
    | FailToConnect(cause: PlatformError)
    | FailToDisconnect(cause: PlatformError)
    | FailToDiscoverService(cause: PlatformError)
    | FailToDiscoverCharacteristic(cause: PlatformError)
    | FailToUpdateValue(cause: PlatformError)
    | FailToUpdateNotify(cause: PlatformError)

  predicate IsCounterService(s: Service) {
    s.uuid == CounterAccessory.ServiceUuid
  }

  predicate IsCounterCharacteristic(c: Characteristic) {
    c.uuid == CounterAccessory.CounterCharacteristicUuid
  }

  /** `counterService`: the first discovered service of the handle with the counter service UUID. */
  function CounterService(handle: Option<Peripheral>): (r: Option<Service>)
    ensures r.Some? ==> handle.Some? && handle.value.services.Some?
    ensures r.Some? ==> r.value in handle.value.services.value && IsCounterService(r.value)
    ensures r.None? <==> handle.None? || handle.value.services.None? ||
                         forall i :: 0 <= i < |handle.value.services.value| ==> !IsCounterService(handle.value.services.value[i])
  {
    if handle.Some? && handle.value.services.Some? then FirstWhere(handle.value.services.value, IsCounterService)
    else None
  }

  /** `counterCharacteristic`: the first discovered characteristic of the counter service with the counter UUID. */
  function CounterCharacteristic(handle: Option<Peripheral>): (r: Option<Characteristic>)
    ensures r.Some? ==> CounterService(handle).Some? && CounterService(handle).value.characteristics.Some?
    ensures r.Some? ==> r.value in CounterService(handle).value.characteristics.value && IsCounterCharacteristic(r.value)
    ensures r.None? <==> CounterService(handle).None? || CounterService(handle).value.characteristics.None? ||
                         var cs := CounterService(handle).value.characteristics.value;
                         forall i :: 0 <= i < |cs| ==> !IsCounterCharacteristic(cs[i])
  {
    var service := CounterService(handle);
    if service.Some? && service.value.characteristics.Some? then
      FirstWhere(service.value.characteristics.value, IsCounterCharacteristic)
    else None
  }

  /** `finishDiscoveringService`: the handle carries a services list. */
  predicate FinishDiscoveringService(handle: Option<Peripheral>) {
    handle.Some? && handle.value.services.Some?
  }

  /** `finishDiscoveringCharacteristic`: the counter service carries a characteristics list. */
  predicate FinishDiscoveringCharacteristic(handle: Option<Peripheral>) {
    CounterService(handle).Some? && CounterService(handle).value.characteristics.Some?
  }

  /** The fields of the controller, as one value. */
  datatype Snapshot = Snapshot(
    targetId: Option<Uuid>,             // counterAccessoryBluetoothId
    peripheralState: PeripheralState,   // counterPeripheralState
    characteristicFound: bool,          // counterCharacteristicFound
    count: int,                         // count
    handle: Option<Peripheral>,         // counterPeripheral
    radio: ManagerState,                // bluetoothState
    hasManager: bool,                   // centralManager != nil
    errors: seq<CentralError>,          // everything yielded to errorsContinuation
    requests: seq<Request>)             // every platform call made

  /**
    The effect of assigning `handle` to `counterPeripheral`, observer included: the
    connection state and the counter are re-derived from the new handle, and the
    found flag is re-derived only once both discovery phases have completed.
   */
  function Assigned(s: Snapshot, handle: Option<Peripheral>, decode: seq<byte> -> Option<int>): (t: Snapshot)
    ensures t.handle == handle
    ensures t.(peripheralState := s.peripheralState, characteristicFound := s.characteristicFound,
               count := s.count, handle := s.handle) == s
    ensures handle.None? ==> t.peripheralState == Disconnected && t.count == 0 && t.characteristicFound == s.characteristicFound
    ensures handle.Some? ==> t.peripheralState == handle.value.state
    ensures t.characteristicFound != s.characteristicFound ==>
              FinishDiscoveringService(handle) && FinishDiscoveringCharacteristic(handle)
    ensures FinishDiscoveringService(handle) && FinishDiscoveringCharacteristic(handle) ==>
              (t.characteristicFound <==> CounterCharacteristic(handle).Some?)
    ensures CounterCharacteristic(handle).None? || CounterCharacteristic(handle).value.value.None? ==> t.count == 0
    ensures forall d :: CounterCharacteristic(handle).Some? && CounterCharacteristic(handle).value.value == Some(d) ==>
              t.count == decode(d).GetOr(0)
  {
    var found := if FinishDiscoveringService(handle) && FinishDiscoveringCharacteristic(handle)
                 then CounterCharacteristic(handle).Some? else s.characteristicFound;
    var count := match CounterCharacteristic(handle)
                 case Some(Characteristic(_, Some(data), _)) => decode(data).GetOr(0)
                 case _ => 0;
    s.(peripheralState := if handle.Some? then handle.value.state else Disconnected,
       characteristicFound := found, count := count, handle := handle)
  }

  /** `updatePeripheral`: a handle reported by the platform is adopted only when it is the target. */
  function Updated(s: Snapshot, p: Peripheral, decode: seq<byte> -> Option<int>): (t: Snapshot)
    ensures t.targetId == s.targetId && t.radio == s.radio && t.hasManager == s.hasManager
    ensures t.errors == s.errors && t.requests == s.requests
    ensures t.handle != s.handle ==> t.handle == Some(p) && s.targetId == Some(p.identifier)
    ensures s.targetId == Some(p.identifier) ==> t == Assigned(s, Some(p), decode)
    ensures s.targetId != Some(p.identifier) ==> t == s
  {
    if Some(p.identifier) == s.targetId then Assigned(s, Some(p), decode) else s
  }

  /** `connectPeripheral` with its error swallowed: a connect request when the radio is on and a manager exists. */
  function ConnectAttempt(s: Snapshot, p: Peripheral): Snapshot {
    if s.radio == PoweredOn && s.hasManager then s.(requests := s.requests + [Connect(p.identifier, true)]) else s
  }

  /** One notify-off request per characteristic, in order (the inner loop of `disconnectPeripheral`). */
  function NotifyOffCharacteristics(id: Uuid, cs: seq<Characteristic>): (r: seq<Request>)
    ensures |r| == |cs|
    ensures forall k :: 0 <= k < |cs| ==> r[k] == SetNotifyValue(id, false, cs[k].uuid)
  {
    if cs == [] then [] else NotifyOffCharacteristics(id, cs[..|cs| - 1]) + [SetNotifyValue(id, false, cs[|cs| - 1].uuid)]
  }

  /** Notify-off requests for every characteristic of every service, in order (the outer loop). */
  function NotifyOffServices(id: Uuid, ss: seq<Service>): seq<Request> {
    if ss == [] then []
    else NotifyOffServices(id, ss[..|ss| - 1]) + NotifyOffCharacteristics(id, ss[|ss| - 1].characteristics.GetOr([]))
  }

  /** The notify-off requests cover exactly the discovered characteristics of the handle. */
  lemma {:induction false} NotifyOffServicesCovers(id: Uuid, ss: seq<Service>, r: Request)
    ensures r in NotifyOffServices(id, ss) <==>
              exists i, k :: 0 <= i < |ss| && ss[i].characteristics.Some? && 0 <= k < |ss[i].characteristics.value| &&
                             r == SetNotifyValue(id, false, ss[i].characteristics.value[k].uuid)
  {
    if ss != [] {
      var init, last := ss[..|ss| - 1], ss[|ss| - 1];
      NotifyOffServicesCovers(id, init, r);
      var tail := NotifyOffCharacteristics(id, last.characteristics.GetOr([]));
      assert NotifyOffServices(id, ss) == NotifyOffServices(id, init) + tail;
      if r in tail {
        var k :| 0 <= k < |tail| && tail[k] == r;
        assert ss[|ss| - 1].characteristics.Some? && r == SetNotifyValue(id, false, ss[|ss| - 1].characteristics.value[k].uuid);
      }
      if exists i, k :: 0 <= i < |ss| && ss[i].characteristics.Some? && 0 <= k < |ss[i].characteristics.value| &&
                        r == SetNotifyValue(id, false, ss[i].characteristics.value[k].uuid) {
        var i, k :| 0 <= i < |ss| && ss[i].characteristics.Some? && 0 <= k < |ss[i].characteristics.value| &&
                    r == SetNotifyValue(id, false, ss[i].characteristics.value[k].uuid);
        if i == |ss| - 1 {
          assert tail[k] == r;
        } else {
          assert init[i] == ss[i];
        }
      }
    }
  }

  /** The requests `disconnectPeripheral` issues once a manager exists: notify-off while connected, then cancel. */
  function TeardownRequests(p: Peripheral): (r: seq<Request>)
    ensures |r| > 0 && r[|r| - 1] == CancelConnection(p.identifier)
    ensures p.state != Connected ==> r == [CancelConnection(p.identifier)]
    ensures p.state == Connected ==> r[..|r| - 1] == NotifyOffServices(p.identifier, p.services.GetOr([]))
  {
    (if p.state == Connected then NotifyOffServices(p.identifier, p.services.GetOr([])) else []) +
    [CancelConnection(p.identifier)]
  }

  /** The nested loops of `disconnectPeripheral`: notify-off for every characteristic of every service, in order. */
  method NotifyOffRequests(id: Uuid, services: seq<Service>) returns (sent: seq<Request>)
    ensures sent == NotifyOffServices(id, services)
  {
    sent := [];
    var i := 0;
    while i < |services|
      invariant 0 <= i <= |services|
      invariant sent == NotifyOffServices(id, services[..i])
    {
      var characteristics := services[i].characteristics.GetOr([]);
      ghost var before := sent;
      var j := 0;
      while j < |characteristics|
        invariant 0 <= j <= |characteristics|
        invariant sent == before + NotifyOffCharacteristics(id, characteristics[..j])
      {
        sent := sent + [SetNotifyValue(id, false, characteristics[j].uuid)];
        assert characteristics[..j + 1][..j] == characteristics[..j];
        j := j + 1;
      }
      assert characteristics[..j] == characteristics;
      assert services[..i + 1][..i] == services[..i];
      i := i + 1;
    }
    assert services[..i] == services;
  }

  class BluetoothCentralManager {
    /** The integer codec `Int.data` / `Int.fromData`, which the controller treats as given. */
    const encode: int -> seq<byte>
    const decode: seq<byte> -> Option<int>

    var counterAccessoryBluetoothId: Option<Uuid>
    var counterPeripheralState: PeripheralState
    var counterCharacteristicFound: bool
    var count: int
    var counterPeripheral: Option<Peripheral>
    var bluetoothState: ManagerState
    var hasCentralManager: bool
    var errors: seq<CentralError>
    var requests: seq<Request>

    ghost function State(): Snapshot
      reads this
    {
      Snapshot(counterAccessoryBluetoothId, counterPeripheralState, counterCharacteristicFound, count,
               counterPeripheral, bluetoothState, hasCentralManager, errors, requests)
    }

    /** `init`: no manager yet (it must wait for the accessory migration), no target, the found flag true. */
    constructor (encode: int -> seq<byte>, decode: seq<byte> -> Option<int>)
      ensures this.encode == encode && this.decode == decode
      ensures State() == Snapshot(None, Disconnected, true, 0, None, PoweredOff, false, [], [])
    {
      this.encode, this.decode := encode, decode;
      counterAccessoryBluetoothId := None;
      counterPeripheralState := Disconnected;
      counterCharacteristicFound := true;
      count := 0;
      counterPeripheral := None;
      bluetoothState := PoweredOff;
      hasCentralManager := false;
      errors, requests := [], [];
    }

    /** Assignment to `counterPeripheral`, running its `didSet` observer. */
    method SetCounterPeripheral(handle: Option<Peripheral>)
      modifies this
      ensures State() == Assigned(old(State()), handle, decode)
    {
      counterPeripheral := handle;
      counterPeripheralState := if handle.Some? then handle.value.state else Disconnected;
      if FinishDiscoveringService(handle) && FinishDiscoveringCharacteristic(handle) {
        counterCharacteristicFound := CounterCharacteristic(handle).Some?;
      }
      var characteristic := CounterCharacteristic(handle);
      if characteristic.None? || characteristic.value.value.None? {
        count := 0;
        return;
      }
      count := decode(characteristic.value.value.value).GetOr(0);
    }

    /** Assignment to `counterAccessoryBluetoothId` by the pairing coordinator (a plain stored property). */
    method SetCounterAccessoryBluetoothId(id: Option<Uuid>)
      modifies this
      ensures State() == old(State()).(targetId := id)
    {
      counterAccessoryBluetoothId := id;
    }

    /** `initCBCentralManager`: creates the manager unless one already exists. */
    method InitCBCentralManager()
      modifies this
      ensures old(hasCentralManager) ==> State() == old(State())
      ensures !old(hasCentralManager) ==>
                State() == old(State()).(hasManager := true, requests := old(requests) + [CreateManager(true)])
    {
      if hasCentralManager { return; }
      hasCentralManager := true;
      requests := requests + [CreateManager(true)];
    }

    /** `deinitCBCentralManager`: drops the manager, the handle and the target id. */
    method DeinitCBCentralManager()
      modifies this
      ensures State() == Assigned(old(State()).(hasManager := false), None, decode).(targetId := None)
      ensures !hasCentralManager && counterPeripheral.None? && counterAccessoryBluetoothId.None?
    {
      hasCentralManager := false;
      SetCounterPeripheral(None);
      counterAccessoryBluetoothId := None;
    }

    /**
      `retrieveCounterPeripheral`: `retrieved` is what the platform answers to the
      lookup by identifier; only its first element is used.
     */
    method RetrieveCounterPeripheral(retrieved: seq<Peripheral>) returns (r: Outcome<CentralError>)
      modifies this
      ensures old(bluetoothState) != PoweredOn ==> r == Fail(BluetoothNotAvailable) && State() == old(State())
      ensures old(bluetoothState) == PoweredOn ==> r == Pass
      ensures old(bluetoothState) == PoweredOn && old(counterAccessoryBluetoothId).None? ==> State() == old(State())
      ensures old(counterPeripheral).Some? && Some(old(counterPeripheral).value.identifier) == old(counterAccessoryBluetoothId) ==>
                State() == old(State())
      ensures old(bluetoothState) == PoweredOn && old(counterAccessoryBluetoothId).Some? &&
              (old(counterPeripheral).None? || Some(old(counterPeripheral).value.identifier) != old(counterAccessoryBluetoothId)) ==>
                State() == if old(hasCentralManager)
                           then Assigned(old(State()).(requests := old(requests) + [RetrievePeripherals([old(counterAccessoryBluetoothId).value])]),
                                         if |retrieved| > 0 then Some(retrieved[0]) else None, decode)
                           else Assigned(old(State()), None, decode)
    {
      if bluetoothState != PoweredOn {
        return Fail(BluetoothNotAvailable);
      }
      r := Pass;
      if counterAccessoryBluetoothId.None? { return; }
      var peripheralUuid := counterAccessoryBluetoothId.value;
      if !(counterPeripheral.None? || counterPeripheral.value.identifier != peripheralUuid) { return; }
      if hasCentralManager {
        requests := requests + [RetrievePeripherals([peripheralUuid])];
        SetCounterPeripheral(if |retrieved| > 0 then Some(retrieved[0]) else None);
      } else {
        SetCounterPeripheral(None);
      }
    }

    /** `connectPeripheral`: radio check before manager check, then one connect request. */
    method ConnectPeripheral(p: Peripheral) returns (r: Outcome<CentralError>)
      modifies this
      ensures old(bluetoothState) != PoweredOn ==> r == Fail(BluetoothNotAvailable)
      ensures old(bluetoothState) == PoweredOn && !old(hasCentralManager) ==> r == Fail(ManagerNotInitialized)
      ensures r.Pass? <==> old(bluetoothState) == PoweredOn && old(hasCentralManager)
      ensures State() == ConnectAttempt(old(State()), p)
    {
      if bluetoothState != PoweredOn {
        return Fail(BluetoothNotAvailable);
      }
      if !hasCentralManager {
        return Fail(ManagerNotInitialized);
      }
      requests := requests + [Connect(p.identifier, true)];
      r := Pass;
    }

    /** `connectCounterPeripheral`: the handle check comes first; on success the state reads `.connecting`. */
    method ConnectCounterPeripheral() returns (r: Outcome<CentralError>)
      modifies this
      ensures old(counterPeripheral).None? ==> r == Fail(CounterPeripheralNotDiscovered)
      ensures old(counterPeripheral).Some? && old(bluetoothState) != PoweredOn ==> r == Fail(BluetoothNotAvailable)
      ensures old(counterPeripheral).Some? && old(bluetoothState) == PoweredOn && !old(hasCentralManager) ==>
                r == Fail(ManagerNotInitialized)
      ensures r.Pass? <==> old(counterPeripheral).Some? && old(bluetoothState) == PoweredOn && old(hasCentralManager)
      ensures r.Fail? ==> State() == old(State())
      ensures r.Pass? ==> State() == old(State()).(peripheralState := Connecting,
                                                   requests := old(requests) + [Connect(old(counterPeripheral).value.identifier, true)])
    {
      if counterPeripheral.None? {
        return Fail(CounterPeripheralNotDiscovered);
      }
      r := ConnectPeripheral(counterPeripheral.value);
      if r.Fail? { return; }
      counterPeripheralState := Connecting;
    }

    /** `discoverCounterCharacteristic`: needs the counter service; asks for the counter characteristic on it. */
    method DiscoverCounterCharacteristic() returns (r: Outcome<CentralError>)
      modifies this
      ensures CounterService(old(counterPeripheral)).None? ==>
                r == Fail(CounterPeripheralNotDiscovered) && State() == old(State())
      ensures CounterService(old(counterPeripheral)).Some? ==>
                r == Pass &&
                State() == old(State()).(requests := old(requests) +
                  [DiscoverCharacteristics(old(counterPeripheral).value.identifier,
                                           [CounterAccessory.CounterCharacteristicUuid],
                                           CounterService(old(counterPeripheral)).value.uuid)])
    {
      var service := CounterService(counterPeripheral);
      if service.None? || counterPeripheral.None? {
        return Fail(CounterPeripheralNotDiscovered);
      }
      requests := requests + [DiscoverCharacteristics(counterPeripheral.value.identifier,
                                                      [CounterAccessory.CounterCharacteristicUuid], service.value.uuid)];
      r := Pass;
    }

    /** `writeValue`: radio check, then one write request. */
    method WriteValue(p: Peripheral, data: seq<byte>, characteristic: Characteristic, withResponse: bool)
      returns (r: Outcome<CentralError>)
      modifies this
      ensures old(bluetoothState) != PoweredOn ==> r == Fail(BluetoothNotAvailable) && State() == old(State())
      ensures old(bluetoothState) == PoweredOn ==>
                r == Pass &&
                State() == old(State()).(requests := old(requests) + [Request.WriteValue(p.identifier, data, characteristic.uuid, withResponse)])
    {
      if bluetoothState != PoweredOn {
        return Fail(BluetoothNotAvailable);
      }
      requests := requests + [Request.WriteValue(p.identifier, data, characteristic.uuid, withResponse)];
      r := Pass;
    }

    /** `setCount`: handle, then characteristic, then radio; on success one with-response write of the encoding. */
    method SetCount(value: int) returns (r: Outcome<CentralError>)
      modifies this
      ensures old(counterPeripheral).None? ==> r == Fail(CounterPeripheralNotDiscovered)
      ensures old(counterPeripheral).Some? && CounterCharacteristic(old(counterPeripheral)).None? ==>
                r == Fail(CounterCharacteristicNotDiscovered)
      ensures CounterCharacteristic(old(counterPeripheral)).Some? && old(bluetoothState) != PoweredOn ==>
                r == Fail(BluetoothNotAvailable)
      ensures r.Pass? <==> CounterCharacteristic(old(counterPeripheral)).Some? && old(bluetoothState) == PoweredOn
      ensures r.Fail? ==> State() == old(State())
      ensures r.Pass? ==>
                State() == old(State()).(requests := old(requests) +
                  [Request.WriteValue(old(counterPeripheral).value.identifier, encode(value),
                                      CounterAccessory.CounterCharacteristicUuid, true)])
    {
      if counterPeripheral.None? {
        return Fail(CounterPeripheralNotDiscovered);
      }
      var characteristic := CounterCharacteristic(counterPeripheral);
      if characteristic.None? {
        return Fail(CounterCharacteristicNotDiscovered);
      }
      r := WriteValue(counterPeripheral.value, encode(value), characteristic.value, true);
    }

    /**
      `disconnectPeripheral`: nothing without a manager; otherwise notify-off for every
      discovered characteristic while connected, then a cancel. The guard before the cancel
      (`state != .disconnected || state != .disconnecting`) holds for every state.
     */
    method DisconnectPeripheral(p: Peripheral)
      modifies this
      ensures !old(hasCentralManager) ==> State() == old(State())
      ensures old(hasCentralManager) ==> State() == old(State()).(requests := old(requests) + TeardownRequests(p))
    {
      if !hasCentralManager { return; }
      if p.state == Connected {
        var notifyOff := NotifyOffRequests(p.identifier, p.services.GetOr([]));
        requests := requests + notifyOff;
      }
      if p.state != Disconnected || p.state != Disconnecting {
        requests := requests + [CancelConnection(p.identifier)];
      }
    }

    /** `disconnectCounterPeripheral`: nothing without a handle, else tears the handle down. */
    method DisconnectCounterPeripheral()
      modifies this
      ensures old(counterPeripheral).None? || !old(hasCentralManager) ==> State() == old(State())
      ensures old(counterPeripheral).Some? && old(hasCentralManager) ==>
                State() == old(State()).(requests := old(requests) + TeardownRequests(old(counterPeripheral).value))
    {
      if counterPeripheral.None? { return; }
      DisconnectPeripheral(counterPeripheral.value);
    }

    /** `updatePeripheral`. */
    method UpdatePeripheral(p: Peripheral)
      modifies this
      ensures State() == Updated(old(State()), p, decode)
    {
      if Some(p.identifier) == counterAccessoryBluetoothId {
        SetCounterPeripheral(Some(p));
      }
    }

    /** `centralManagerDidUpdateState`: losing power from `.poweredOn` to `.poweredOff` drops the handle and the target. */
    method DidUpdateState(state: ManagerState)
      modifies this
      ensures old(bluetoothState) == PoweredOn && state == PoweredOff ==>
                State() == Assigned(old(State()).(radio := state), None, decode).(targetId := None)
      ensures !(old(bluetoothState) == PoweredOn && state == PoweredOff) ==> State() == old(State()).(radio := state)
    {
      var oldValue := bluetoothState;
      bluetoothState := state;
      if bluetoothState == PoweredOff && oldValue == PoweredOn {
        SetCounterPeripheral(None);
        counterAccessoryBluetoothId := None;
      }
    }

    /** `didConnect`: adopts the target and asks it for the counter service. */
    method DidConnect(p: Peripheral)
      modifies this
      ensures Some(p.identifier) != old(counterAccessoryBluetoothId) ==> State() == old(State())
      ensures Some(p.identifier) == old(counterAccessoryBluetoothId) ==>
                State() == Assigned(old(State()), Some(p), decode).(requests := old(requests) +
                             [DiscoverServices(p.identifier, [CounterAccessory.ServiceUuid])])
    {
      UpdatePeripheral(p);
      if Some(p.identifier) != counterAccessoryBluetoothId {
        return;
      }
      requests := requests + [DiscoverServices(p.identifier, [CounterAccessory.ServiceUuid])];
    }

    /** `didDisconnectPeripheral`: an unexpected disconnect is reported and, unless the platform is reconnecting, retried. */
    method DidDisconnectPeripheral(p: Peripheral, isReconnecting: bool, error: Option<PlatformError>)
      modifies this
      ensures error.None? ==> State() == Updated(old(State()), p, decode)
      ensures error.Some? && isReconnecting ==>
                State() == Updated(old(State()), p, decode).(errors := old(errors) + [FailToDisconnect(error.value)])
      ensures error.Some? && !isReconnecting ==>
                State() == ConnectAttempt(Updated(old(State()), p, decode).(errors := old(errors) + [FailToDisconnect(error.value)]), p)
    {
      UpdatePeripheral(p);
      if error.Some? {
        errors := errors + [FailToDisconnect(error.value)];
        if !isReconnecting {
          var _ := ConnectPeripheral(p);
        }
      }
    }

    /** `didFailToConnect`: reports the error, runs the teardown on the reported peripheral, then updates the handle from it. */
    method DidFailToConnect(p: Peripheral, error: Option<PlatformError>)
      modifies this
      ensures var reported := if error.Some? then old(errors) + [FailToConnect(error.value)] else old(errors);
              var tornDown := if old(hasCentralManager) then old(requests) + TeardownRequests(p) else old(requests);
              State() == Updated(old(State()).(errors := reported, requests := tornDown), p, decode)
    {
      if error.Some? {
        errors := errors + [FailToConnect(error.value)];
      }
      DisconnectPeripheral(p);
      UpdatePeripheral(p);
    }

    /** `didModifyServices`. */
    method DidModifyServices(p: Peripheral)
      modifies this
      ensures State() == Updated(old(State()), p, decode)
    {
      UpdatePeripheral(p);
    }

    /** `didDiscoverServices`: on error report and stop; otherwise go on to characteristic discovery. */
    method DidDiscoverServices(p: Peripheral, error: Option<PlatformError>)
      modifies this
      ensures var s := Updated(old(State()), p, decode);
              error.Some? ==> State() == s.(errors := s.errors + [FailToDiscoverService(error.value)])
      ensures var s := Updated(old(State()), p, decode);
              error.None? && CounterService(s.handle).None? ==>
                State() == s.(errors := s.errors + [CounterPeripheralNotDiscovered])
      ensures var s := Updated(old(State()), p, decode);
              error.None? && CounterService(s.handle).Some? ==>
                State() == s.(requests := s.requests + [DiscoverCharacteristics(s.handle.value.identifier,
                                                                                [CounterAccessory.CounterCharacteristicUuid],
                                                                                CounterService(s.handle).value.uuid)])
    {
      UpdatePeripheral(p);
      if error.Some? {
        errors := errors + [FailToDiscoverService(error.value)];
        return;
      }
      var r := DiscoverCounterCharacteristic();
      if r.Fail? {
        errors := errors + [r.error];
      }
    }

    /** `didDiscoverCharacteristicsFor`: on error report and stop; if the counter characteristic is known, subscribe and read it. */
    method DidDiscoverCharacteristics(p: Peripheral, error: Option<PlatformError>)
      modifies this
      ensures var s := Updated(old(State()), p, decode);
              error.Some? ==> State() == s.(errors := s.errors + [FailToDiscoverCharacteristic(error.value)])
      ensures var s := Updated(old(State()), p, decode);
              error.None? && CounterCharacteristic(s.handle).None? ==> State() == s
      ensures var s := Updated(old(State()), p, decode);
              error.None? && CounterCharacteristic(s.handle).Some? ==>
                var uuid := CounterCharacteristic(s.handle).value.uuid;
                State() == s.(requests := s.requests + [SetNotifyValue(p.identifier, true, uuid), ReadValue(p.identifier, uuid)])
    {
      UpdatePeripheral(p);
      if error.Some? {
        errors := errors + [FailToDiscoverCharacteristic(error.value)];
        return;
      }
      var characteristic := CounterCharacteristic(counterPeripheral);
      if characteristic.None? { return; }
      requests := requests + [SetNotifyValue(p.identifier, true, characteristic.value.uuid)];
      requests := requests + [ReadValue(p.identifier, characteristic.value.uuid)];
    }

    /** `didUpdateNotificationStateFor`: an error is reported as `failToDiscoverCharacteristic`. */
    method DidUpdateNotificationState(p: Peripheral, error: Option<PlatformError>)
      modifies this
      ensures var s := Updated(old(State()), p, decode);
              State() == if error.Some? then s.(errors := s.errors + [FailToDiscoverCharacteristic(error.value)]) else s
    {
      UpdatePeripheral(p);
      if error.Some? {
        errors := errors + [FailToDiscoverCharacteristic(error.value)];
      }
    }

    /** `didUpdateValueFor`: the new value arrives on the handle; an error is reported as `failToDiscoverCharacteristic`. */
    method DidUpdateValue(p: Peripheral, error: Option<PlatformError>)
      modifies this
      ensures var s := Updated(old(State()), p, decode);
              State() == if error.Some? then s.(errors := s.errors + [FailToDiscoverCharacteristic(error.value)]) else s
    {
      UpdatePeripheral(p);
      if error.Some? {
        errors := errors + [FailToDiscoverCharacteristic(error.value)];
      }
    }

    /** `didWriteValueFor`: one follow-up read exactly when the counter characteristic is known and not notifying. */
    method DidWriteValue(p: Peripheral, error: Option<PlatformError>)
      modifies this
      ensures var s := Updated(old(State()), p, decode);
              var c := CounterCharacteristic(s.handle);
              State() == if c.Some? && !c.value.isNotifying
                         then s.(requests := s.requests + [ReadValue(p.identifier, c.value.uuid)])
                         else s
    {
      UpdatePeripheral(p);
      var characteristic := CounterCharacteristic(counterPeripheral);
      if characteristic.Some? && !characteristic.value.isNotifying {
        requests := requests + [ReadValue(p.identifier, characteristic.value.uuid)];
      }
    }
  }
}
