/**
 * The platform side of the link as BlueDeviceService.kt sees it: the fixed
 * SG2 UUIDs, discovered services, the GATT handle, scanned devices, and the
 * alphabet of platform calls and phone actions the callbacks issue.
 */
module Gatt {
  import opened Wrappers
  import opened Wire

  /** UUIDs are compared as opaque identifiers. */
  type Uuid = string

  const SG2_SERVICE_UUID: Uuid := "14701820-620a-3973-7c78-9cfff0876abd"
  const SG2_CMD_CHARACTERISTIC_UUID: Uuid := "14702856-620a-3973-7c78-9cfff0876abd"
  const SG2_NOTIFICATION_CHARACTERISTIC_UUID: Uuid := "14702853-620a-3973-7c78-9cfff0876abd"

  type DescriptorId = nat

  /**
   * A discovered GATT service. Only what the source reads is kept: its UUID
   * and the descriptors of its SG2 notification characteristic.
   */
  datatype GattService = GattService(uuid: Uuid, notificationDescriptors: seq<DescriptorId>)

  /**
   * A `BluetoothGatt` connection handle. `services` is what the platform
   * reports for this connection; nothing in the service changes it.
   */
  class GattHandle {
    const services: seq<GattService>

    constructor (services: seq<GattService>)
      ensures this.services == services
    {
      this.services := services;
    }
  }

  /** `bleGatt?.services`: no services when there is no handle. */
  function ServicesOf(g: GattHandle?): (s: seq<GattService>)
    ensures g == null ==> s == []
  {
    if g == null then [] else g.services
  }

  /** A `BluetoothDevice`: its hardware address and optional advertised name. */
  datatype Device = Device(address: string, name: Option<string>)

  /** A `ScanResult`: the device and the signal strength it was seen with. */
  datatype ScanResult = ScanResult(device: Device, rssi: int)

  /** Calls into the BLE stack, phone-side actions and status updates, in the order issued. */
  datatype Action =
    | StartScan
    | StopScan
    | ConnectGatt(device: Device)
    | DiscoverServices(gatt: GattHandle)
    | Disconnect(gatt: GattHandle)
    | Connect(gatt: GattHandle)
    | Close(gatt: GattHandle)
    | WriteDescriptor(gatt: GattHandle, descriptor: DescriptorId, value: seq<Byte>)
    | EnableNotification(gatt: GattHandle)
    | WriteCommand(gatt: GattHandle, value: seq<Byte>)
    | SendMediaKey(key: MediaKey)
    | AdjustVolume(delta: int)
    | PlaySound
    | ErrorNotice(text: string)
    | Status(text: string)
}
