/**
  Client code that drives each controller through the flows the two apps perform,
  using nothing but the controllers' contracts.
 */
module Scenarios {
  import opened Wrappers
  import opened Platform
  import CounterAccessory
  import CentralManager
  import PeripheralManager

  /** Radio on, target handed over, handle retrieved, connect requested and confirmed: service discovery follows. */
  method RetrieveAndConnect(encode: int -> seq<byte>, decode: seq<byte> -> Option<int>, id: Uuid)
  {
    var m := new CentralManager.BluetoothCentralManager(encode, decode);
    m.InitCBCentralManager();
    m.DidUpdateState(PoweredOn);
    m.SetCounterAccessoryBluetoothId(Some(id));

    var p := Peripheral(id, Disconnected, None);
    var r := m.RetrieveCounterPeripheral([p]);
    assert r == Pass && m.counterPeripheral == Some(p);
    assert m.requests == [CreateManager(true), RetrievePeripherals([id])];

    r := m.RetrieveCounterPeripheral([]);
    assert r == Pass && m.counterPeripheral == Some(p);
    assert m.requests == [CreateManager(true), RetrievePeripherals([id])];

    r := m.ConnectCounterPeripheral();
    assert r == Pass && m.counterPeripheralState == Connecting;

    m.DidConnect(p.(state := Connected));
    assert m.counterPeripheralState == Connected;
    assert m.requests == [CreateManager(true), RetrievePeripherals([id]), Connect(id, true),
                          DiscoverServices(id, [CounterAccessory.ServiceUuid])];
  }

  /** Service discovery finding the counter service asks for the counter characteristic. */
  method DiscoverService(encode: int -> seq<byte>, decode: seq<byte> -> Option<int>, id: Uuid)
  {
    var m := new CentralManager.BluetoothCentralManager(encode, decode);
    m.InitCBCentralManager();
    m.DidUpdateState(PoweredOn);
    m.SetCounterAccessoryBluetoothId(Some(id));
    var connected := Peripheral(id, Connected, None);
    m.DidConnect(connected);

    var discovered := connected.(services := Some([Service(CounterAccessory.ServiceUuid, None)]));
    m.DidDiscoverServices(discovered, None);
    assert m.requests[|m.requests| - 1] ==
           DiscoverCharacteristics(id, [CounterAccessory.CounterCharacteristicUuid], CounterAccessory.ServiceUuid);
    assert m.counterCharacteristicFound;
  }

  /** Characteristic discovery that finds the counter characteristic subscribes to it, then reads it. */
  method DiscoverCharacteristic(encode: int -> seq<byte>, decode: seq<byte> -> Option<int>, id: Uuid)
  {
    var m := new CentralManager.BluetoothCentralManager(encode, decode);
    m.DidUpdateState(PoweredOn);
    m.SetCounterAccessoryBluetoothId(Some(id));
    var counter := Characteristic(CounterAccessory.CounterCharacteristicUuid, None, false);
    var withCounter := Peripheral(id, Connected, Some([Service(CounterAccessory.ServiceUuid, Some([counter]))]));
    m.DidConnect(withCounter);
    m.DidDiscoverCharacteristics(withCounter, None);
    assert m.counterCharacteristicFound;
    var n := |m.requests|;
    assert m.requests[n - 2..] == [SetNotifyValue(id, true, counter.uuid), ReadValue(id, counter.uuid)];
  }

  /** The first read delivers the encoded count, which the controller shows decoded. */
  method FirstRead(encode: int -> seq<byte>, decode: seq<byte> -> Option<int>, id: Uuid)
  {
    var m := new CentralManager.BluetoothCentralManager(encode, decode);
    m.DidUpdateState(PoweredOn);
    m.SetCounterAccessoryBluetoothId(Some(id));
    var counter := Characteristic(CounterAccessory.CounterCharacteristicUuid, Some(encode(0)), true);
    var read := Peripheral(id, Connected, Some([Service(CounterAccessory.ServiceUuid, Some([counter]))]));
    m.DidUpdateValue(read, None);
    assert m.count == decode(encode(0)).GetOr(0) && m.errors == [];
  }

  /** A write acknowledged while notifications are off is followed by exactly one read. */
  method WriteThenRead(encode: int -> seq<byte>, decode: seq<byte> -> Option<int>, id: Uuid, value: int)
  {
    var m := new CentralManager.BluetoothCentralManager(encode, decode);
    m.InitCBCentralManager();
    m.DidUpdateState(PoweredOn);
    m.SetCounterAccessoryBluetoothId(Some(id));
    var counter := Characteristic(CounterAccessory.CounterCharacteristicUuid, None, false);
    var p := Peripheral(id, Connected, Some([Service(CounterAccessory.ServiceUuid, Some([counter]))]));
    m.DidConnect(p);
    var r := m.SetCount(value);
    assert r == Pass;
    var before := m.requests;
    assert before[|before| - 1] == Request.WriteValue(id, encode(value), counter.uuid, true);
    m.DidWriteValue(p, None);
    assert m.requests == before + [ReadValue(id, counter.uuid)];
  }

  /** Losing the radio drops the handle and the target. */
  method RadioLoss(encode: int -> seq<byte>, decode: seq<byte> -> Option<int>, id: Uuid)
  {
    var m := new CentralManager.BluetoothCentralManager(encode, decode);
    m.DidUpdateState(PoweredOn);
    m.SetCounterAccessoryBluetoothId(Some(id));
    m.DidConnect(Peripheral(id, Connected, None));
    assert m.counterPeripheral.Some?;
    m.DidUpdateState(PoweredOff);
    assert m.counterPeripheral.None? && m.counterAccessoryBluetoothId.None?;
    assert m.counterPeripheralState == Disconnected;
  }

  /** Advertising with the radio off fails and the toggle stays off. */
  method AdvertiseWithRadioOff(encode: int -> seq<byte>, decode: seq<byte> -> Option<int>)
  {
    var m := new PeripheralManager.BluetoothPeripheralManager(encode, decode);
    m.SetAdvertising(true);
    assert m.error == Some(PeripheralManager.BluetoothNotAvailable) && !m.isAdvertising;
    assert m.requests == [CreateManager(true)];
  }

  /** Two writes split across offsets decode once and push once; the full queue is retried with the latest count. */
  method SplitWriteAndRetry(encode: int -> seq<byte>, decode: seq<byte> -> Option<int>, head: seq<byte>, tail: seq<byte>, central: Uuid)
    requires decode(head + tail).Some?
  {
    var m := new PeripheralManager.BluetoothPeripheralManager(encode, decode);
    m.DidUpdateState(PoweredOn);
    assert m.serviceAdded && m.requests == [CreateManager(true), AddService(CounterAccessory.ServiceUuid)];
    var first := AttRequest(central, CounterAccessory.CounterCharacteristicUuid, 0, Some(head));
    var second := AttRequest(central, CounterAccessory.CounterCharacteristicUuid, 2, Some([0, 0] + tail));
    assert PeripheralManager.Coalesced([first, second]) == head + tail by {
      assert [first, second][..1] == [first];
      assert [first][..0] == [];
      assert ([0, 0] + tail)[2..] == tail;
      assert PeripheralManager.Payload(second) == tail;
      assert PeripheralManager.Payload(first) == head;
      assert PeripheralManager.Coalesced([first]) == head;
    }
    var before := m.requests;
    m.DidReceiveWrite([first, second], false);
    var value := decode(head + tail).value;
    assert m.count == value;
    assert m.requests == before + [UpdateValue(encode(value), CounterAccessory.CounterCharacteristicUuid), Respond(first, true)];
    m.IsReadyToUpdateSubscribers(true);
    assert m.requests[|m.requests| - 1] == UpdateValue(encode(value), CounterAccessory.CounterCharacteristicUuid);
  }

  /** Repeated subscriptions of one central leave one entry. */
  method SubscribeTwice(encode: int -> seq<byte>, decode: seq<byte> -> Option<int>, central: CentralRef)
  {
    var m := new PeripheralManager.BluetoothPeripheralManager(encode, decode);
    m.DidSubscribe(central, CounterAccessory.CounterCharacteristicUuid);
    assert m.subscribedCentrals == [central];
    m.DidSubscribe(central.(maximumUpdateValueLength := 512), CounterAccessory.CounterCharacteristicUuid);
    assert m.subscribedCentrals == [central] && m.subscribedCentralCount == 1;
  }

  /** Unsubscribing removes the central that subscribed. */
  method SubscribeThenUnsubscribe(encode: int -> seq<byte>, decode: seq<byte> -> Option<int>, central: CentralRef)
  {
    var m := new PeripheralManager.BluetoothPeripheralManager(encode, decode);
    m.DidSubscribe(central, CounterAccessory.CounterCharacteristicUuid);
    assert m.subscribedCentrals == [central];
    assert PeripheralManager.WithoutCentral([central], central.identifier) == [];
    m.DidUnsubscribe(central, CounterAccessory.CounterCharacteristicUuid);
    assert m.subscribedCentrals == [] && m.subscribedCentralCount == 0;
  }
}
