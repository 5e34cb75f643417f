/**
  The peripheral-role controller of the accessory app (`BluetoothPeripheralManager`).
  It registers the counter service once, toggles advertising with roll-back on
  failure, keeps the list of subscribed centrals free of repeated identifiers,
  pushes every new counter value and serves read and write requests.
 */
module PeripheralManager {
  import opened Wrappers
  import opened Platform
  import CounterAccessory

  /** `BluetoothPeripheralError`. */
  datatype PeripheralError =
    | ManagerNotInitialized
    | BluetoothNotAvailable
    | FailToUpdateCharacteristic              // the transmit queue is full
    | FailToStartAdvertising(cause: PlatformError)

  // ---------------------------------------------------------------------------
  // The subscriber list

  predicate HasCentral(centrals: seq<CentralRef>, id: Uuid) {
    exists k :: 0 <= k < |centrals| && centrals[k].identifier == id
  }

  /** No two entries share an identifier. */
  ghost predicate UniqueIds(centrals: seq<CentralRef>) {
    forall i, j :: 0 <= i < j < |centrals| ==> centrals[i].identifier != centrals[j].identifier
  }

  /** `removeAll(where: { $0.identifier == id })`. */
  function WithoutCentral(centrals: seq<CentralRef>, id: Uuid): (r: seq<CentralRef>)
    ensures |r| <= |centrals|
    ensures !HasCentral(r, id)
    ensures forall c :: c in r <==> c in centrals && c.identifier != id
  {
    if centrals == [] then []
    else if centrals[0].identifier == id then WithoutCentral(centrals[1..], id)
    else [centrals[0]] + WithoutCentral(centrals[1..], id)
  }

  /** One step of removal: the first entry is kept exactly when it has another identifier. */
  lemma WithoutCentralCons(x: CentralRef, rest: seq<CentralRef>, id: Uuid)
    ensures WithoutCentral([x] + rest, id) == (if x.identifier == id then [] else [x]) + WithoutCentral(rest, id)
  {
    assert ([x] + rest)[0] == x && ([x] + rest)[1..] == rest;
  }

  /** Removal keeps the order of what remains: it distributes over concatenation. */
  lemma {:induction false} WithoutCentralDistributes(a: seq<CentralRef>, b: seq<CentralRef>, id: Uuid)
    ensures WithoutCentral(a + b, id) == WithoutCentral(a, id) + WithoutCentral(b, id)
  {
    if a != [] {
      var x, rest := a[0], a[1..];
      assert a == [x] + rest;
      assert a + b == [x] + (rest + b);
      WithoutCentralCons(x, rest, id);
      WithoutCentralCons(x, rest + b, id);
      WithoutCentralDistributes(rest, b, id);
    } else {
      assert a + b == b;
    }
  }

  /** Removing an identifier that is not there changes nothing. */
  lemma {:induction false} WithoutAbsentCentral(centrals: seq<CentralRef>, id: Uuid)
    requires !HasCentral(centrals, id)
    ensures WithoutCentral(centrals, id) == centrals
  {
    if centrals != [] {
      assert !HasCentral(centrals[1..], id) by {
        forall k | 0 <= k < |centrals[1..]| ensures centrals[1..][k].identifier != id {
          assert centrals[1..][k] == centrals[k + 1];
        }
      }
      WithoutAbsentCentral(centrals[1..], id);
      assert [centrals[0]] + centrals[1..] == centrals;
    }
  }

  /** Prepending a central whose identifier is new keeps identifiers unique. */
  lemma PrependKeepsUnique(x: CentralRef, tail: seq<CentralRef>)
    requires UniqueIds(tail)
    requires forall c :: c in tail ==> c.identifier != x.identifier
    ensures UniqueIds([x] + tail)
  {
  }

  /** Removal never introduces a repeated identifier. */
  lemma {:induction false} WithoutCentralKeepsUnique(centrals: seq<CentralRef>, id: Uuid)
    requires UniqueIds(centrals)
    ensures UniqueIds(WithoutCentral(centrals, id))
  {
    if centrals != [] {
      var rest := centrals[1..];
      assert UniqueIds(rest) by {
        forall i, j | 0 <= i < j < |rest| ensures rest[i].identifier != rest[j].identifier {
          assert rest[i] == centrals[i + 1] && rest[j] == centrals[j + 1];
        }
      }
      WithoutCentralKeepsUnique(rest, id);
      if centrals[0].identifier != id {
        var tail := WithoutCentral(rest, id);
        forall c | c in tail ensures c.identifier != centrals[0].identifier {
          var k :| 0 <= k < |rest| && rest[k] == c;
          assert centrals[k + 1] == c;
        }
        PrependKeepsUnique(centrals[0], tail);
      }
    }
  }

  // ---------------------------------------------------------------------------
  // State restoration: the map/filter/flatMap chain of `willRestoreState`

  /** `filter({ $0 != nil }).flatMap({ $0! })`: the present lists, concatenated in order. */
  function FlattenPresent<T(!new)>(lists: seq<Option<seq<T>>>): (r: seq<T>)
    ensures forall x :: x in r <==> exists k :: 0 <= k < |lists| && lists[k].Some? && x in lists[k].value
  {
    if lists == [] then []
    else
      var rest := FlattenPresent(lists[1..]);
      lists[0].GetOr([]) + rest
  }

  /** The characteristics of the restored services (`map(\.characteristics)` then flattened). */
  function RestoredCharacteristics(services: seq<LocalService>): seq<LocalCharacteristic> {
    FlattenPresent(seq(|services|, i requires 0 <= i < |services| => services[i].characteristics))
  }

  /** The `as? CBMutableCharacteristic` filter. */
  function MutableOnly(cs: seq<LocalCharacteristic>): (r: seq<LocalCharacteristic>)
    ensures forall c :: c in r <==> c in cs && c.isMutable
  {
    if cs == [] then []
    else (if cs[0].isMutable then [cs[0]] else []) + MutableOnly(cs[1..])
  }

  /** The restored subscriber list: the subscribers of every restored mutable characteristic. */
  function RestoredCentrals(restored: Option<seq<LocalService>>): seq<CentralRef> {
    var mutable := MutableOnly(RestoredCharacteristics(restored.GetOr([])));
    FlattenPresent(seq(|mutable|, i requires 0 <= i < |mutable| => mutable[i].subscribedCentrals))
  }

  /** A central is restored exactly when some mutable characteristic of some restored service lists it. */
  lemma RestoredCentralsMembership(restored: Option<seq<LocalService>>, x: CentralRef)
    ensures x in RestoredCentrals(restored) <==>
              exists s, c :: s in restored.GetOr([]) && s.characteristics.Some? && c in s.characteristics.value &&
                             c.isMutable && c.subscribedCentrals.Some? && x in c.subscribedCentrals.value
  {
    var services := restored.GetOr([]);
    var all := RestoredCharacteristics(services);
    var mutable := MutableOnly(all);
    var lists := seq(|mutable|, i requires 0 <= i < |mutable| => mutable[i].subscribedCentrals);
    var serviceLists := seq(|services|, i requires 0 <= i < |services| => services[i].characteristics);
    if x in RestoredCentrals(restored) {
      var k :| 0 <= k < |lists| && lists[k].Some? && x in lists[k].value;
      var c := mutable[k];
      assert c in all && c.isMutable;
      var m :| 0 <= m < |serviceLists| && serviceLists[m].Some? && c in serviceLists[m].value;
      assert services[m] in services;
    }
    if exists s, c :: s in services && s.characteristics.Some? && c in s.characteristics.value &&
                      c.isMutable && c.subscribedCentrals.Some? && x in c.subscribedCentrals.value {
      var s, c :| s in services && s.characteristics.Some? && c in s.characteristics.value &&
                  c.isMutable && c.subscribedCentrals.Some? && x in c.subscribedCentrals.value;
      var m :| 0 <= m < |services| && services[m] == s;
      assert serviceLists[m] == s.characteristics;
      assert c in all;
      var k :| 0 <= k < |mutable| && mutable[k] == c;
      assert lists[k] == c.subscribedCentrals;
    }
  }

  /**
    Restoration does not de-duplicate: a central subscribed through two restored services
    is listed twice, so unique identifiers are preserved by the subscription callbacks but
    are not an invariant of the controller.
   */
  lemma RestoreMayRepeatCentral(c: CentralRef)
    ensures var svc := LocalService(Some([LocalCharacteristic(true, Some([c]))]));
            RestoredCentrals(Some([svc, svc])) == [c, c] && !UniqueIds([c, c])
  {
    var ch := LocalCharacteristic(true, Some([c]));
    var svc := LocalService(Some([ch]));
    var lists := seq(2, i requires 0 <= i < 2 => [svc, svc][i].characteristics);
    assert lists == [Some([ch]), Some([ch])];
    assert lists[1..] == [Some([ch])] && lists[1..][1..] == [];
    assert FlattenPresent(lists[1..]) == [ch];
    assert FlattenPresent(lists) == [ch, ch];
    assert RestoredCharacteristics([svc, svc]) == [ch, ch];
    assert [ch, ch][1..] == [ch] && [ch][1..] == [];
    assert MutableOnly([ch]) == [ch];
    assert MutableOnly([ch, ch]) == [ch, ch];
    var subs := seq(2, i requires 0 <= i < 2 => [ch, ch][i].subscribedCentrals);
    assert subs == [Some([c]), Some([c])];
    assert subs[1..] == [Some([c])] && subs[1..][1..] == [];
    assert FlattenPresent(subs[1..]) == [c];
    assert FlattenPresent(subs) == [c, c];
    assert RestoredCentrals(Some([svc, svc])) == FlattenPresent(subs);
    assert [c, c][0].identifier == [c, c][1].identifier;
  }

  // ---------------------------------------------------------------------------
  // Write coalescing

  /** `Data.dropFirst(n)`: everything after the first `n` bytes, or nothing. */
  function DropFirst(data: seq<byte>, n: nat): (r: seq<byte>)
    ensures |r| == if n <= |data| then |data| - n else 0
    ensures forall k :: 0 <= k < |r| ==> r[k] == data[n + k]
  {
    if n <= |data| then data[n..] else []
  }

  /** What one write request contributes to the buffer. */
  function Payload(request: AttRequest): seq<byte> {
    match request.value
    case None => []
    case Some(data) => DropFirst(data, request.offset)
  }

  /** The buffer `didReceiveWrite` decodes: every payload, in request order. */
  function Coalesced(requests: seq<AttRequest>): seq<byte> {
    if requests == [] then []
    else Coalesced(requests[..|requests| - 1]) + Payload(requests[|requests| - 1])
  }

  /** Coalescing is a homomorphism: batches may be split anywhere. */
  lemma {:induction false} CoalescedAppend(a: seq<AttRequest>, b: seq<AttRequest>)
    ensures Coalesced(a + b) == Coalesced(a) + Coalesced(b)
  {
    if b != [] {
      var init := b[..|b| - 1];
      assert (a + b)[..|a + b| - 1] == a + init;
      CoalescedAppend(a, init);
    } else {
      assert a + b == a;
    }
  }

  /** The loop of `didReceiveWrite` that builds its `Data` buffer. */
  method CoalesceWriteRequests(requests: seq<AttRequest>) returns (data: seq<byte>)
    ensures data == Coalesced(requests)
  {
    data := [];
    var i := 0;
    while i < |requests|
      invariant 0 <= i <= |requests|
      invariant data == Coalesced(requests[..i])
    {
      var request := requests[i];
      assert requests[..i + 1][..i] == requests[..i];
      if request.value.None? {
        i := i + 1;
        continue;
      }
      var requestValue := DropFirst(request.value.value, request.offset);
      data := data + requestValue;
      i := i + 1;
    }
    assert requests[..i] == requests;
  }

  // ---------------------------------------------------------------------------
  // The controller

  /** The fields of the controller, as one value. */
  datatype Snapshot = Snapshot(
    count: int,
    subscribedCentralCount: int,
    subscribedCentrals: seq<CentralRef>,
    isAdvertising: bool,
    error: Option<PeripheralError>,
    radio: ManagerState,             // bluetoothState
    hasManager: bool,                // peripheralManager != nil
    serviceAdded: bool,
    requests: seq<Request>)          // every platform call made

  /** `updateValue` is called only when the radio is on and a manager exists: both are checked before it. */
  function Pushed(s: Snapshot, data: seq<byte>): Snapshot {
    if s.radio == PoweredOn && s.hasManager
    then s.(requests := s.requests + [UpdateValue(data, CounterAccessory.CounterCharacteristicUuid)])
    else s
  }

  /** How many times the service has been handed to the platform. */
  function AddServiceRequests(requests: seq<Request>): nat {
    multiset(requests)[Request.AddService(CounterAccessory.ServiceUuid)]
  }

  /** The service is handed to the platform at most once, and never before the flag is set. */
  predicate RegisteredAtMostOnce(s: Snapshot) {
    AddServiceRequests(s.requests) <= if s.serviceAdded then 1 else 0
  }

  /** `addService`: registers the service once, and only while the radio is on. */
  function ServiceRegistered(s: Snapshot): (t: Snapshot)
    ensures s.serviceAdded || s.radio != PoweredOn ==> t == s
    ensures s.radio == PoweredOn ==> t.serviceAdded
    ensures t == s.(serviceAdded := t.serviceAdded, requests := t.requests)
    ensures t.requests == s.requests + if s.radio == PoweredOn && !s.serviceAdded && s.hasManager
                                       then [Request.AddService(CounterAccessory.ServiceUuid)] else []
    ensures RegisteredAtMostOnce(s) ==> RegisteredAtMostOnce(t)
  {
    if s.radio == PoweredOn && !s.serviceAdded
    then s.(serviceAdded := true,
            requests := s.requests + if s.hasManager then [Request.AddService(CounterAccessory.ServiceUuid)] else [])
    else s
  }

  /** `stopAdvertising`: only while the radio is on. */
  function AdvertisingStopped(s: Snapshot): Snapshot {
    if s.radio == PoweredOn && s.hasManager then s.(requests := s.requests + [StopAdvertising]) else s
  }

  /** `advertisementData`: the local name and the counter service UUID. */
  function AdvertisementRequest(): Request {
    Request.StartAdvertising(CounterAccessory.Name, [CounterAccessory.ServiceUuid])
  }

  /** The error `startAdvertising` throws: the manager is checked before the radio. */
  function StartFailure(s: Snapshot): Option<PeripheralError> {
    if !s.hasManager then Some(ManagerNotInitialized)
    else if s.radio != PoweredOn then Some(BluetoothNotAvailable)
    else None
  }

  /** A successful `startAdvertising`: the service is registered, then advertising starts. */
  function AdvertisingStarted(s: Snapshot): Snapshot {
    var t := ServiceRegistered(s);
    t.(requests := t.requests + [AdvertisementRequest()])
  }

  /**
    Assignment to `isAdvertising` with its observer, as intended: a failed start records
    the error and puts the previous value back once.
   */
  function Advertised(s: Snapshot, on: bool): (t: Snapshot)
    ensures t.isAdvertising == if on && StartFailure(s).Some? then s.isAdvertising else on
    ensures on && StartFailure(s).Some? ==> t == s.(error := StartFailure(s))
    ensures on && StartFailure(s).None? ==> t.error == s.error && t.serviceAdded
    ensures !on ==> t.error == s.error && t.serviceAdded == s.serviceAdded
  {
    if on then
      match StartFailure(s)
      case Some(e) => s.(error := Some(e))
      case None => AdvertisingStarted(s.(isAdvertising := true))
    else AdvertisingStopped(s.(isAdvertising := false))
  }

  /**
    Assignment to `isAdvertising` as it runs when the assignment that restores the old value
    inside the observer goes through the observed setter and runs the observer again.
    `fuel` bounds the number of re-runs; `None` means they did not end within it.
   */
  function ObservedAssignment(s: Snapshot, value: bool, fuel: nat): Option<Snapshot>
    decreases fuel
  {
    var oldValue := s.isAdvertising;
    var t := s.(isAdvertising := value);
    if !value then Some(AdvertisingStopped(t))
    else match StartFailure(t)
      case None => Some(AdvertisingStarted(t))
      case Some(e) => if fuel == 0 then None else ObservedAssignment(t.(error := Some(e)), oldValue, fuel - 1)
  }

  /** Re-asserting `true` while advertising cannot start never ends: every re-run fails and restores `true` again. */
  lemma {:induction false} ObservedRestartLoops(s: Snapshot, fuel: nat)
    requires s.isAdvertising && StartFailure(s).Some?
    ensures ObservedAssignment(s, true, fuel).None?
    decreases fuel
  {
    if fuel > 0 {
      ObservedRestartLoops(s.(error := StartFailure(s)), fuel - 1);
    }
  }

  /**
    The concrete case: advertising was on, the radio then went off, and `true` is assigned
    again. The re-running observer never ends, while the intended one records the error.
   */
  lemma ObservedRestartAfterRadioLoss(requests: seq<Request>, fuel: nat)
    ensures var s := Snapshot(0, 0, [], true, None, PoweredOff, true, true, requests);
            ObservedAssignment(s, true, fuel).None? &&
            Advertised(s, true) == s.(error := Some(BluetoothNotAvailable))
  {
    ObservedRestartLoops(Snapshot(0, 0, [], true, None, PoweredOff, true, true, requests), fuel);
  }

  /** Whenever the re-running observer does end, it ends in the intended state. */
  lemma ObservedAgreesWhenItEnds(s: Snapshot, on: bool, fuel: nat)
    ensures ObservedAssignment(s, on, fuel).Some? ==> ObservedAssignment(s, on, fuel).value == Advertised(s, on)
  {
    if on && StartFailure(s).Some? && fuel > 0 {
      var t := s.(isAdvertising := true).(error := StartFailure(s));
      if !s.isAdvertising {
        assert ObservedAssignment(s, on, fuel) == ObservedAssignment(t, false, fuel - 1);
      } else {
        ObservedRestartLoops(t, fuel - 1);
      }
    }
  }

  class BluetoothPeripheralManager {
    /** The integer codec `Int.data` / `Int.fromData`, which the controller treats as given. */
    const encode: int -> seq<byte>
    const decode: seq<byte> -> Option<int>

    var count: int
    var subscribedCentralCount: int
    var subscribedCentrals: seq<CentralRef>
    var isAdvertising: bool
    var error: Option<PeripheralError>
    var bluetoothState: ManagerState
    var hasPeripheralManager: bool
    var serviceAdded: bool
    var requests: seq<Request>

    /**
      The class invariant: the observer of `subscribedCentrals` keeps the published count
      equal to the list length, and the service is registered at most once.
     */
    ghost predicate Valid()
      reads this
    {
      subscribedCentralCount == |subscribedCentrals| && RegisteredAtMostOnce(State())
    }

    ghost function State(): Snapshot
      reads this
    {
      Snapshot(count, subscribedCentralCount, subscribedCentrals, isAdvertising, error,
               bluetoothState, hasPeripheralManager, serviceAdded, requests)
    }

    /** `init`: creates the peripheral manager at once; nothing is advertised or registered yet. */
    constructor (encode: int -> seq<byte>, decode: seq<byte> -> Option<int>)
      ensures Valid()
      ensures this.encode == encode && this.decode == decode
      ensures State() == Snapshot(0, 0, [], false, None, PoweredOff, true, false, [CreateManager(true)])
    {
      this.encode, this.decode := encode, decode;
      count := 0;
      subscribedCentralCount := 0;
      subscribedCentrals := [];
      isAdvertising := false;
      error := None;
      bluetoothState := PoweredOff;
      hasPeripheralManager := true;
      serviceAdded := false;
      requests := [CreateManager(true)];
    }

    /** `updateCharacteristicValue`: radio, then manager, then a full transmit queue (`queueHasRoom` is the platform's answer). */
    method UpdateCharacteristicValue(value: seq<byte>, queueHasRoom: bool) returns (r: Outcome<PeripheralError>)
      requires Valid()
      modifies this
      ensures Valid()
      ensures old(bluetoothState) != PoweredOn ==> r == Fail(BluetoothNotAvailable)
      ensures old(bluetoothState) == PoweredOn && !old(hasPeripheralManager) ==> r == Fail(ManagerNotInitialized)
      ensures old(bluetoothState) == PoweredOn && old(hasPeripheralManager) ==>
                r == if queueHasRoom then Pass else Fail(FailToUpdateCharacteristic)
      ensures State() == Pushed(old(State()), value)
    {
      if bluetoothState != PoweredOn {
        return Fail(BluetoothNotAvailable);
      }
      if !hasPeripheralManager {
        return Fail(ManagerNotInitialized);
      }
      requests := requests + [UpdateValue(value, CounterAccessory.CounterCharacteristicUuid)];
      if !queueHasRoom {
        return Fail(FailToUpdateCharacteristic);
      }
      r := Pass;
    }

    /** Assignment to `count`: its observer pushes the new encoding and swallows any error. */
    method SetCount(value: int, queueHasRoom: bool)
      requires Valid()
      modifies this
      ensures Valid()
      ensures State() == Pushed(old(State()).(count := value), encode(value))
    {
      count := value;
      var _ := UpdateCharacteristicValue(encode(count), queueHasRoom);
    }

    /** `addService`. */
    method AddService()
      requires Valid()
      modifies this
      ensures Valid()
      ensures State() == ServiceRegistered(old(State()))
    {
      if bluetoothState != PoweredOn { return; }
      if !serviceAdded {
        if hasPeripheralManager {
          requests := requests + [Request.AddService(CounterAccessory.ServiceUuid)];
        }
        serviceAdded := true;
      }
    }

    /** `startAdvertising`: manager, then radio; on success the service is registered before advertising starts. */
    method StartAdvertising() returns (r: Outcome<PeripheralError>)
      requires Valid()
      modifies this
      ensures Valid()
      ensures !old(hasPeripheralManager) ==> r == Fail(ManagerNotInitialized) && State() == old(State())
      ensures old(hasPeripheralManager) && old(bluetoothState) != PoweredOn ==>
                r == Fail(BluetoothNotAvailable) && State() == old(State())
      ensures old(hasPeripheralManager) && old(bluetoothState) == PoweredOn ==>
                r == Pass &&
                State() == var t := ServiceRegistered(old(State())); t.(requests := t.requests + [AdvertisementRequest()])
    {
      if !hasPeripheralManager {
        return Fail(ManagerNotInitialized);
      }
      if bluetoothState != PoweredOn {
        return Fail(BluetoothNotAvailable);
      }
      AddService();
      requests := requests + [AdvertisementRequest()];
      r := Pass;
    }

    /** `stopAdvertising`. */
    method StopAdvertising()
      requires Valid()
      modifies this
      ensures Valid()
      ensures State() == AdvertisingStopped(old(State()))
    {
      if bluetoothState != PoweredOn { return; }
      if hasPeripheralManager {
        requests := requests + [Request.StopAdvertising];
      }
    }

    /**
      Assignment to `isAdvertising`, observer included: turning it on starts advertising,
      and a failure records the error and puts the flag back to its previous value.
     */
    method SetAdvertising(on: bool)
      requires Valid()
      modifies this
      ensures Valid()
      ensures on && !old(hasPeripheralManager) ==> State() == old(State()).(error := Some(ManagerNotInitialized))
      ensures on && old(hasPeripheralManager) && old(bluetoothState) != PoweredOn ==>
                State() == old(State()).(error := Some(BluetoothNotAvailable))
      ensures on && old(hasPeripheralManager) && old(bluetoothState) == PoweredOn ==>
                State() == var t := ServiceRegistered(old(State()).(isAdvertising := true));
                           t.(requests := t.requests + [AdvertisementRequest()])
      ensures !on ==> State() == AdvertisingStopped(old(State()).(isAdvertising := false))
      ensures State() == Advertised(old(State()), on)
    {
      var oldValue := isAdvertising;
      isAdvertising := on;
      if isAdvertising {
        var r := StartAdvertising();
        if r.Fail? {
          error := Some(r.error);
          isAdvertising := oldValue;
        }
      } else {
        StopAdvertising();
      }
    }

    /** `peripheralManagerDidUpdateState`: records the state, then tries to register the service. */
    method DidUpdateState(state: ManagerState)
      requires Valid()
      modifies this
      ensures Valid()
      ensures State() == ServiceRegistered(old(State()).(radio := state))
    {
      bluetoothState := state;
      AddService();
    }

    /** `peripheralManagerDidStartAdvertising`. */
    method DidStartAdvertising(error: Option<PlatformError>)
      requires Valid()
      modifies this
      ensures Valid()
      ensures State() == if error.Some? then old(State()).(error := Some(FailToStartAdvertising(error.value))) else old(State())
    {
      if error.Some? {
        this.error := Some(FailToStartAdvertising(error.value));
      }
    }

    /** `didAdd`: a failure turns advertising off (through its observer) and records the error. */
    method DidAdd(error: Option<PlatformError>)
      requires Valid()
      modifies this
      ensures Valid()
      ensures error.None? ==> State() == old(State())
      ensures error.Some? ==>
                State() == AdvertisingStopped(old(State()).(isAdvertising := false)).(error := Some(FailToStartAdvertising(error.value)))
    {
      if error.Some? {
        SetAdvertising(false);
        this.error := Some(FailToStartAdvertising(error.value));
      }
    }

    /** `peripheralManagerIsReady(toUpdateSubscribers:)`: retries with the current, latest count. */
    method IsReadyToUpdateSubscribers(queueHasRoom: bool)
      requires Valid()
      modifies this
      ensures Valid()
      ensures var pushed := Pushed(old(State()), encode(old(count)));
              var failure := if old(bluetoothState) != PoweredOn then Some(BluetoothNotAvailable)
                             else if !old(hasPeripheralManager) then Some(ManagerNotInitialized)
                             else if !queueHasRoom then Some(FailToUpdateCharacteristic)
                             else None;
              State() == if failure.Some? then pushed.(error := failure) else pushed
    {
      var r := UpdateCharacteristicValue(encode(count), queueHasRoom);
      if r.Fail? {
        error := Some(r.error);
      }
    }

    /** `willRestoreState`: the subscriber list becomes the restored subscribers. */
    method WillRestoreState(restored: Option<seq<LocalService>>)
      requires Valid()
      modifies this
      ensures Valid()
      ensures State() == old(State()).(subscribedCentrals := RestoredCentrals(restored),
                                       subscribedCentralCount := |RestoredCentrals(restored)|)
    {
      subscribedCentrals := RestoredCentrals(restored);
      subscribedCentralCount := |subscribedCentrals|;
    }

    /** `didSubscribeTo`: appends the central unless an entry already has its identifier; other characteristics are ignored. */
    method DidSubscribe(central: CentralRef, characteristic: Uuid)
      requires Valid()
      modifies this
      ensures Valid()
      ensures characteristic == CounterAccessory.CounterCharacteristicUuid && !HasCentral(old(subscribedCentrals), central.identifier) ==>
                State() == old(State()).(subscribedCentrals := old(subscribedCentrals) + [central],
                                         subscribedCentralCount := old(subscribedCentralCount) + 1)
      ensures !(characteristic == CounterAccessory.CounterCharacteristicUuid && !HasCentral(old(subscribedCentrals), central.identifier)) ==>
                State() == old(State())
      ensures characteristic == CounterAccessory.CounterCharacteristicUuid ==> HasCentral(subscribedCentrals, central.identifier)
      ensures UniqueIds(old(subscribedCentrals)) ==> UniqueIds(subscribedCentrals)
    {
      if characteristic == CounterAccessory.CounterCharacteristicUuid && !HasCentral(subscribedCentrals, central.identifier) {
        subscribedCentrals := subscribedCentrals + [central];
        subscribedCentralCount := |subscribedCentrals|;
        assert subscribedCentrals[|subscribedCentrals| - 1] == central;
      }
    }

    /** `didUnsubscribeFrom`: drops every entry with the central's identifier; other characteristics are ignored. */
    method DidUnsubscribe(central: CentralRef, characteristic: Uuid)
      requires Valid()
      modifies this
      ensures Valid()
      ensures characteristic == CounterAccessory.CounterCharacteristicUuid ==>
                State() == old(State()).(subscribedCentrals := WithoutCentral(old(subscribedCentrals), central.identifier),
                                         subscribedCentralCount := |WithoutCentral(old(subscribedCentrals), central.identifier)|)
      ensures characteristic != CounterAccessory.CounterCharacteristicUuid ==> State() == old(State())
      ensures UniqueIds(old(subscribedCentrals)) ==> UniqueIds(subscribedCentrals)
    {
      if characteristic == CounterAccessory.CounterCharacteristicUuid {
        assert UniqueIds(subscribedCentrals) ==> UniqueIds(WithoutCentral(subscribedCentrals, central.identifier)) by {
          if UniqueIds(subscribedCentrals) { WithoutCentralKeepsUnique(subscribedCentrals, central.identifier); }
        }
        subscribedCentrals := WithoutCentral(subscribedCentrals, central.identifier);
        subscribedCentralCount := |subscribedCentrals|;
      }
    }

    /** `didReceiveRead`: a counter read gets the encoded count; the response is always success. */
    method DidReceiveRead(request: AttRequest) returns (answered: AttRequest)
      requires Valid()
      modifies this
      ensures Valid()
      ensures answered == if request.characteristic == CounterAccessory.CounterCharacteristicUuid
                          then request.(value := Some(encode(old(count)))) else request
      ensures State() == old(State()).(requests := old(requests) + [Respond(answered, true)])
    {
      answered := request;
      if request.characteristic == CounterAccessory.CounterCharacteristicUuid {
        answered := answered.(value := Some(encode(count)));
      }
      requests := requests + [Respond(answered, true)];
    }

    /**
      `didReceiveWrite`: the coalesced buffer updates the count (and so pushes it) only
      when the first request is for the counter and the buffer decodes; the first request
      alone gets a success response.
     */
    method DidReceiveWrite(writes: seq<AttRequest>, queueHasRoom: bool)
      requires Valid()
      modifies this
      ensures Valid()
      ensures writes == [] ==> State() == old(State())
      ensures writes != [] ==>
                var decoded := decode(Coalesced(writes));
                var updated := if writes[0].characteristic == CounterAccessory.CounterCharacteristicUuid && decoded.Some?
                               then Pushed(old(State()).(count := decoded.value), encode(decoded.value))
                               else old(State());
                State() == updated.(requests := updated.requests + [Respond(writes[0], true)])
    {
      if writes == [] { return; }
      var data := CoalesceWriteRequests(writes);
      if writes[0].characteristic == CounterAccessory.CounterCharacteristicUuid {
        var value := decode(data);
        if value.Some? {
          SetCount(value.value, queueHasRoom);
        }
      }
      requests := requests + [Respond(writes[0], true)];
    }
  }
}
