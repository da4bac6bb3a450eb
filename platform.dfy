/** Platform values shared by the connection session and the paired-device listing:
    nullable values, escaping exceptions, the local adapter and a remote device. */
module Platform {

  /** A Kotlin nullable value. */
  datatype Option<+T> = None | Some(value: T) {
    /** The `?:` (elvis) operator: the value, or `default` when it is null. */
    function GetOr(default: T): T {
      match this
      case Some(v) => v
      case None => default
    }
  }

  /** The outcome of a Kotlin call that can throw an exception its caller has to catch. */
  datatype Outcome<+T> = Returned(value: T) | Threw

  type Byte = bv8

  /** The local Bluetooth adapter as it is at the moment of a call;
      an absent adapter (a device without Bluetooth) is `None`. */
  datatype Adapter = Adapter(enabled: bool, name: Option<string>)

  /** A remote device handle as the platform hands it out. */
  datatype RemoteDevice = RemoteDevice(name: Option<string>, address: string, deviceType: int)

  /** The platform's device type codes. */
  const DeviceTypeUnknown: int := 0
  const DeviceTypeClassic: int := 1
  const DeviceTypeLe: int := 2
  const DeviceTypeDual: int := 3
}
