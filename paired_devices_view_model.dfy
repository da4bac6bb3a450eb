/** `PairedDevicesViewModel`: the loading flag, the two device lists and the selection.
    `refreshDevices` is the body of the coroutine it launches; each of its two repository
    calls reads the bonded devices once, through its own query outcome. */
module DevicesViewModel {
  import opened Platform
  import opened PairedDevices

  class PairedDevicesViewModel {
    const repository: PairedDevicesRepository
    var pairedDevices: seq<BluetoothDeviceInfo>
    var esp32Devices: seq<BluetoothDeviceInfo>
    var isLoading: bool
    var selectedDevice: Option<BluetoothDeviceInfo>

    /** The fields as `init` leaves them before its refresh runs. On the main thread that
        refresh completes before construction returns; here it is an explicit
        `RefreshDevices` call made right after construction. */
    constructor ()
      ensures fresh(repository) && repository.pairedDevices == []
      ensures pairedDevices == [] && esp32Devices == [] && !isLoading && selectedDevice.None?
    {
      repository := new PairedDevicesRepository();
      pairedDevices := [];
      esp32Devices := [];
      isLoading := false;
      selectedDevice := None;
    }

    /** `refreshDevices`: stores the paired list, then the filtered list; a list whose
        query threw keeps its previous value, and the loading flag ends false either way.
        Each repository call sees the adapter as it is at that call (`firstAdapter`,
        `secondAdapter`). When both calls see the same adapter and bonded set, the
        filtered list is an order-preserving selection of the paired list holding each
        matching device as often as it is paired. */
    method RefreshDevices(firstAdapter: Option<Adapter>, first: BondedQuery,
                          secondAdapter: Option<Adapter>, second: BondedQuery)
      modifies this, repository
      ensures !isLoading && selectedDevice == old(selectedDevice)
      ensures pairedDevices ==
              (match PairedListing(firstAdapter, first)
               case Returned(devices) => devices
               case Threw => old(pairedDevices))
      ensures esp32Devices ==
              (if PairedListing(firstAdapter, first).Threw? then old(esp32Devices)
               else match TargetListing(secondAdapter, second)
                    case Returned(devices) => devices
                    case Threw => old(esp32Devices))
      ensures repository.pairedDevices ==
              (var afterFirst := StoredAfter(old(repository.pairedDevices), firstAdapter, first);
               if PairedListing(firstAdapter, first).Threw? then afterFirst
               else StoredAfter(afterFirst, secondAdapter, second))
      ensures firstAdapter == secondAdapter && first == second &&
              PairedListing(firstAdapter, first).Returned? ==>
                IsSubsequence(esp32Devices, pairedDevices) &&
                forall d :: multiset(esp32Devices)[d] ==
                            if IsTargetName(d.name) then multiset(pairedDevices)[d] else 0
    {
      isLoading := true;
      var devices := repository.GetPairedDevices(firstAdapter, first);
      if devices.Returned? {
        pairedDevices := devices.value;
        var esp32s := repository.FindESP32Devices(secondAdapter, second);
        if esp32s.Returned? {
          esp32Devices := esp32s.value;
        }
      }
      // the finally block
      isLoading := false;
      if firstAdapter == secondAdapter && first == second && devices.Returned? {
        TargetsAreSelectionOfPaired(firstAdapter, first);
      }
    }

    /** `selectDevice`. */
    method SelectDevice(device: BluetoothDeviceInfo)
      modifies this
      ensures selectedDevice == Some(device)
      ensures pairedDevices == old(pairedDevices) && esp32Devices == old(esp32Devices)
      ensures isLoading == old(isLoading)
    {
      selectedDevice := Some(device);
    }

    /** `clearSelection`. */
    method ClearSelection()
      modifies this
      ensures selectedDevice.None?
      ensures pairedDevices == old(pairedDevices) && esp32Devices == old(esp32Devices)
      ensures isLoading == old(isLoading)
    {
      selectedDevice := None;
    }
  }
}
