/** `PairedDevicesRepository`: the listing of bonded devices, their classification, the
    name filter for likely serial modules, and the adapter queries. */
module PairedDevices {
  import opened Platform

  /** One entry of the device list. */
  datatype BluetoothDeviceInfo = BluetoothDeviceInfo(name: string, address: string, isPaired: bool, deviceType: string)

  const UnknownDeviceName: string := "Dispositivo Desconocido"

  /** `getDeviceTypeString`. */
  function DeviceTypeLabel(deviceType: int): (r: string)
    ensures r == "Clásico" <==> deviceType == DeviceTypeClassic
    ensures r == "BLE" <==> deviceType == DeviceTypeLe
    ensures r == "Dual" <==> deviceType == DeviceTypeDual
    ensures r == "Desconocido" <==>
            deviceType != DeviceTypeClassic && deviceType != DeviceTypeLe && deviceType != DeviceTypeDual
  {
    if deviceType == DeviceTypeClassic then "Clásico"
    else if deviceType == DeviceTypeLe then "BLE"
    else if deviceType == DeviceTypeDual then "Dual"
    else "Desconocido"
  }

  function ToDeviceInfo(device: RemoteDevice): (r: BluetoothDeviceInfo)
    ensures r.isPaired && r.address == device.address
    ensures device.name.Some? ==> r.name == device.name.value
    ensures device.name.None? ==> r.name == UnknownDeviceName
    ensures r.deviceType == DeviceTypeLabel(device.deviceType)
  {
    BluetoothDeviceInfo(device.name.GetOr(UnknownDeviceName), device.address, true, DeviceTypeLabel(device.deviceType))
  }

  /** `isBluetoothAvailable`. */
  predicate IsBluetoothAvailable(adapter: Option<Adapter>) {
    adapter.Some? && adapter.value.enabled
  }

  /** `getAdapterInfo`: three-way, naming the adapter when it is on. */
  function AdapterInfo(adapter: Option<Adapter>): (r: string)
    ensures adapter.None? ==> r == "Bluetooth no soportado"
    ensures adapter.Some? && !adapter.value.enabled ==> r == "Bluetooth desactivado"
    ensures IsBluetoothAvailable(adapter) ==>
              r == "Bluetooth activado - " + adapter.value.name.GetOr("Adaptador local")
  {
    match adapter
    case None => "Bluetooth no soportado"
    case Some(a) =>
      if !a.enabled then "Bluetooth desactivado"
      else "Bluetooth activado - " + a.name.GetOr("Adaptador local")
  }

  /** The adapter info reports availability: it begins with "Bluetooth activado"
      exactly when Bluetooth is available. */
  lemma AdapterInfoReportsAvailability(adapter: Option<Adapter>)
    ensures |AdapterInfo(adapter)| >= 18 &&
            (AdapterInfo(adapter)[..18] == "Bluetooth activado" <==> IsBluetoothAvailable(adapter))
  {
    var info := AdapterInfo(adapter);
    if !IsBluetoothAvailable(adapter) {
      assert info[..18] != "Bluetooth activado" by {
        if adapter.None? {
          assert info[10] == 'n' && "Bluetooth activado"[10] == 'a';
        } else {
          assert info[10] == 'd' && "Bluetooth activado"[10] == 'a';
        }
      }
    }
  }

  /** What reading the bonded devices gives: the set (in its iteration order), null,
      a `SecurityException`, or any other exception, which escapes to the caller. */
  datatype BondedQuery = Bonded(devices: seq<RemoteDevice>) | NoBondedSet | PermissionDenied | Crashed

  /** The list `getPairedDevices` returns. Unavailable Bluetooth, a null set and a denied
      permission all give the empty list; otherwise one entry per bonded device, in order. */
  function PairedListing(adapter: Option<Adapter>, query: BondedQuery): (r: Outcome<seq<BluetoothDeviceInfo>>)
    ensures !IsBluetoothAvailable(adapter) ==> r == Returned([])
    ensures r.Threw? <==> IsBluetoothAvailable(adapter) && query.Crashed?
    ensures IsBluetoothAvailable(adapter) && (query.NoBondedSet? || query.PermissionDenied?) ==>
              r == Returned([])
    ensures IsBluetoothAvailable(adapter) && query.Bonded? ==>
              r.Returned? && |r.value| == |query.devices| &&
              forall i :: 0 <= i < |query.devices| ==>
                r.value[i].isPaired &&
                r.value[i].address == query.devices[i].address &&
                r.value[i].name == query.devices[i].name.GetOr(UnknownDeviceName) &&
                r.value[i].deviceType == DeviceTypeLabel(query.devices[i].deviceType)
  {
    if !IsBluetoothAvailable(adapter) then Returned([])
    else match query
      case Bonded(ds) => Returned(seq(|ds|, i requires 0 <= i < |ds| => ToDeviceInfo(ds[i])))
      case NoBondedSet => Returned([])
      case PermissionDenied => Returned([])
      case Crashed => Threw
  }

  /** Whether `getPairedDevices` publishes its list: it does unless Bluetooth is unavailable
      (an early return) or an exception escapes. */
  predicate ListingStored(adapter: Option<Adapter>, query: BondedQuery) {
    IsBluetoothAvailable(adapter) && !query.Crashed?
  }

  // ---------------------------------------------------------------------------
  // Name filter

  function ToUpperAscii(c: char): (r: char)
    ensures 'a' <= c <= 'z' ==> 'A' <= r <= 'Z'
    ensures !('a' <= c <= 'z') ==> r == c
  {
    if 'a' <= c <= 'z' then (c as int - 32) as char else c
  }

  /** Characters equal up to (ASCII) case. */
  predicate CharEqualsIgnoreCase(a: char, b: char) {
    a == b || ToUpperAscii(a) == ToUpperAscii(b)
  }

  /** `fragment` occurs in `s` at position `i`, ignoring case. */
  predicate OccursAt(s: string, fragment: string, i: int) {
    0 <= i && i + |fragment| <= |s| &&
    forall j :: 0 <= j < |fragment| ==> CharEqualsIgnoreCase(s[i + j], fragment[j])
  }

  /** `s.contains(fragment, ignoreCase = true)`. */
  predicate ContainsIgnoreCase(s: string, fragment: string) {
    exists i | 0 <= i <= |s| - |fragment| :: OccursAt(s, fragment, i)
  }

  /** The predicate `findESP32Devices` filters with. */
  predicate IsTargetName(name: string) {
    ContainsIgnoreCase(name, "ESP32") || ContainsIgnoreCase(name, "ESP")
    || ContainsIgnoreCase(name, "Arduino") || ContainsIgnoreCase(name, "HC-")
  }

  /** The "ESP32" test adds nothing: every name containing "ESP32" contains "ESP". */
  lemma Esp32FragmentRedundant(name: string)
    ensures IsTargetName(name) <==>
            ContainsIgnoreCase(name, "ESP") || ContainsIgnoreCase(name, "Arduino")
            || ContainsIgnoreCase(name, "HC-")
  {
    if ContainsIgnoreCase(name, "ESP32") {
      var i :| 0 <= i <= |name| - 5 && OccursAt(name, "ESP32", i);
      assert forall j :: 0 <= j < 3 ==> "ESP"[j] == "ESP32"[j];
      assert OccursAt(name, "ESP", i);
    }
  }

  /** The filter ignores case and finds the fragment anywhere in the name. */
  lemma TargetNameExamples()
    ensures IsTargetName("hc-05") && IsTargetName("Mi esp32") && !IsTargetName("Buds")
  {
    assert OccursAt("hc-05", "HC-", 0);
    assert OccursAt("Mi esp32", "ESP", 3);
    assert !ContainsIgnoreCase("Buds", "ESP") by {
      assert !CharEqualsIgnoreCase("Buds"[0], "ESP"[0]);
      assert !CharEqualsIgnoreCase("Buds"[1], "ESP"[0]);
    }
    assert !ContainsIgnoreCase("Buds", "HC-") by {
      assert !CharEqualsIgnoreCase("Buds"[0], "HC-"[0]);
      assert !CharEqualsIgnoreCase("Buds"[1], "HC-"[0]);
    }
  }

  /** `filter` with `IsTargetName` on the device name. */
  function FilterTargets(devices: seq<BluetoothDeviceInfo>): (r: seq<BluetoothDeviceInfo>)
    decreases |devices|
  {
    if devices == [] then []
    else (if IsTargetName(devices[0].name) then [devices[0]] else []) + FilterTargets(devices[1..])
  }

  /** `a` is `b` with some elements left out, order kept. */
  predicate IsSubsequence<T(==)>(a: seq<T>, b: seq<T>)
    decreases |b|
  {
    if a == [] then true
    else if b == [] then false
    else if a[0] == b[0] then IsSubsequence(a[1..], b[1..])
    else IsSubsequence(a, b[1..])
  }

  /** The filter keeps exactly the devices whose name matches. */
  lemma {:induction false} FilterTargetsMembers(devices: seq<BluetoothDeviceInfo>)
    ensures forall d :: d in FilterTargets(devices) <==> d in devices && IsTargetName(d.name)
    decreases |devices|
  {
    if devices != [] {
      FilterTargetsMembers(devices[1..]);
      assert devices == [devices[0]] + devices[1..];
    }
  }

  /** The filter keeps every copy of a matching device and no copy of any other: the
      number of times a device occurs in the result is its number in the input when its
      name matches, and zero otherwise. */
  lemma {:induction false} FilterTargetsCounts(devices: seq<BluetoothDeviceInfo>)
    ensures forall d :: multiset(FilterTargets(devices))[d] ==
                        if IsTargetName(d.name) then multiset(devices)[d] else 0
    decreases |devices|
  {
    if devices != [] {
      FilterTargetsCounts(devices[1..]);
      assert devices == [devices[0]] + devices[1..];
      assert multiset(devices) == multiset([devices[0]]) + multiset(devices[1..]);
      var head := if IsTargetName(devices[0].name) then [devices[0]] else [];
      assert FilterTargets(devices) == head + FilterTargets(devices[1..]);
      assert multiset(FilterTargets(devices)) == multiset(head) + multiset(FilterTargets(devices[1..]));
    }
  }

  /** The filter keeps the input order: its result is a subsequence of its input. */
  lemma {:induction false} FilterTargetsSubsequence(devices: seq<BluetoothDeviceInfo>)
    ensures IsSubsequence(FilterTargets(devices), devices)
    decreases |devices|
  {
    if devices != [] {
      FilterTargetsSubsequence(devices[1..]);
      var rest := FilterTargets(devices[1..]);
      if IsTargetName(devices[0].name) {
        assert FilterTargets(devices) == [devices[0]] + rest;
        assert ([devices[0]] + rest)[1..] == rest;
      } else {
        assert FilterTargets(devices) == rest;
        SubsequenceOfTail(rest, devices);
      }
    }
  }

  /** A subsequence of a sequence's tail is a subsequence of the sequence. */
  lemma {:induction false} SubsequenceOfTail<T>(a: seq<T>, b: seq<T>)
    requires b != [] && IsSubsequence(a, b[1..])
    ensures IsSubsequence(a, b)
    decreases |b|, 0
  {
    if a != [] && a[0] == b[0] {
      DropHeadSubsequence(a, b[1..]);
    }
  }

  /** Leaving out the first element of a subsequence keeps it a subsequence. */
  lemma {:induction false} DropHeadSubsequence<T>(a: seq<T>, c: seq<T>)
    requires a != [] && IsSubsequence(a, c)
    ensures IsSubsequence(a[1..], c)
    decreases |c|, 1
  {
    if a[0] == c[0] {
      SubsequenceOfTail(a[1..], c);
    } else {
      DropHeadSubsequence(a, c[1..]);
      SubsequenceOfTail(a[1..], c);
    }
  }

  /** The list `findESP32Devices` returns: the paired listing, filtered. */
  function TargetListing(adapter: Option<Adapter>, query: BondedQuery): (r: Outcome<seq<BluetoothDeviceInfo>>)
    ensures r.Threw? <==> PairedListing(adapter, query).Threw?
  {
    match PairedListing(adapter, query)
    case Returned(devices) => Returned(FilterTargets(devices))
    case Threw => Threw
  }

  /** Over one bonded set, the likely targets are an order-preserving selection of the
      paired devices, made of exactly the matching ones, each kept as often as it is paired. */
  lemma TargetsAreSelectionOfPaired(adapter: Option<Adapter>, query: BondedQuery)
    requires PairedListing(adapter, query).Returned?
    ensures var paired := PairedListing(adapter, query).value;
            var targets := TargetListing(adapter, query).value;
            IsSubsequence(targets, paired) &&
            (forall d :: d in targets <==> d in paired && IsTargetName(d.name)) &&
            forall d :: multiset(targets)[d] == if IsTargetName(d.name) then multiset(paired)[d] else 0
  {
    FilterTargetsSubsequence(PairedListing(adapter, query).value);
    FilterTargetsMembers(PairedListing(adapter, query).value);
    FilterTargetsCounts(PairedListing(adapter, query).value);
  }

  /** The published device list after one `getPairedDevices`. */
  function StoredAfter(before: seq<BluetoothDeviceInfo>, adapter: Option<Adapter>, query: BondedQuery)
    : (r: seq<BluetoothDeviceInfo>)
  {
    if ListingStored(adapter, query) then PairedListing(adapter, query).value else before
  }

  class PairedDevicesRepository {
    /** The published list of paired devices. */
    var pairedDevices: seq<BluetoothDeviceInfo>

    constructor ()
      ensures pairedDevices == []
    {
      pairedDevices := [];
    }

    /** `getPairedDevices`. */
    method GetPairedDevices(adapter: Option<Adapter>, query: BondedQuery)
      returns (r: Outcome<seq<BluetoothDeviceInfo>>)
      modifies this
      ensures r == PairedListing(adapter, query)
      ensures pairedDevices == StoredAfter(old(pairedDevices), adapter, query)
    {
      if adapter.None? || !adapter.value.enabled {
        return Returned([]);
      }
      var devices: seq<BluetoothDeviceInfo>;
      match query {
        case Bonded(ds) => devices := seq(|ds|, i requires 0 <= i < |ds| => ToDeviceInfo(ds[i]));
        case NoBondedSet => devices := [];
        case PermissionDenied => devices := [];
        case Crashed => return Threw;
      }
      pairedDevices := devices;
      r := Returned(devices);
    }

    /** `findESP32Devices`: lists (and so publishes) the paired devices again, then filters. */
    method FindESP32Devices(adapter: Option<Adapter>, query: BondedQuery)
      returns (r: Outcome<seq<BluetoothDeviceInfo>>)
      modifies this
      ensures r == TargetListing(adapter, query)
      ensures pairedDevices == StoredAfter(old(pairedDevices), adapter, query)
    {
      var allPaired := GetPairedDevices(adapter, query);
      if allPaired.Threw? {
        return Threw;
      }
      r := Returned(FilterTargets(allPaired.value));
    }
  }
}
