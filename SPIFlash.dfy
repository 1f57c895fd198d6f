/**
 * The SPI flash device of SPIFlash.cpp. The ESP-IDF calls it makes (bus
 * initialisation, adding the flash device, esp_flash_init, partition
 * registration and verification, the chip's size) are parameters: each
 * method receives the results those calls produced.
 */
module SpiFlash {
  import opened Wrappers
  import opened StorageDevice

  /** An esp_err_t. */
  type EspErr = int

  const ESP_OK: EspErr := 0

  /** registerPartition always places the partition at this flash offset. */
  const PARTITION_OFFSET: nat := 0x1000

  /** The info record install() starts from, and keeps when a hardware step fails. */
  const RESET_INFO: DeviceInfo := DeviceInfo(Offline, Unknown, 0)

  /** The external partition that registration hands back. */
  datatype Partition = Partition(partLabel: string, offset: nat, size: uint32)

  /** Whether the three fallible hardware steps of install() all reported ESP_OK. */
  predicate HardwareUp(busErr: EspErr, addErr: EspErr, initErr: EspErr)
  {
    busErr == ESP_OK && addErr == ESP_OK && initErr == ESP_OK
  }

  /**
   * SPIFlash, together with the StorageDevice base class whose `info` field
   * and getInfo() it inherits (it is the only kind of device there is).
   */
  class SPIFlash {
    var info: DeviceInfo
    /** `partition`, the out-parameter of the last registration; None is NULL. */
    var partition: Option<Partition>

    /**
     * std::make_shared<SPIFlash>() value-initialises the object, so every
     * field starts as zero: status 0 is ONLINE and type 0 is UNKNOWN.
     */
    constructor ()
      ensures info == DeviceInfo(Online, Unknown, 0)
      ensures partition == None
    {
      info := DeviceInfo(Online, Unknown, 0);
      partition := None;
    }

    /** getInfo: the stored record, unchanged. */
    function GetInfo(): (r: DeviceInfo)
      reads this
      ensures r == info
    {
      info
    }

    /**
     * install: reset `info`, run bus initialisation, adding the device and
     * flash initialisation (returning false at the first that fails), then
     * record the device as an online flash chip of `chipSize` bytes. The
     * result is the driver-initialised check, not the outcome of the steps.
     */
    method Install(busErr: EspErr, addErr: EspErr, initErr: EspErr, chipSize: uint32, driverReady: bool)
      returns (ok: bool)
      modifies this`info
      ensures HardwareUp(busErr, addErr, initErr) ==> info == DeviceInfo(Online, Flash, chipSize)
      ensures !HardwareUp(busErr, addErr, initErr) ==> info == RESET_INFO
      ensures ok <==> HardwareUp(busErr, addErr, initErr) && driverReady
    {
      info := info.(status := Offline);
      info := info.(kind := Unknown);
      info := info.(capacity := 0);

      if busErr != ESP_OK {
        return false;
      }
      if addErr != ESP_OK {
        return false;
      }
      if initErr != ESP_OK {
        return false;
      }

      info := info.(status := Online);
      info := info.(kind := Flash);
      info := info.(capacity := chipSize);

      return driverReady;
    }

    /**
     * registerPartition: ask the partition layer for `size` bytes at the fixed
     * offset under `partLabel`; `ret` is its error code and `registered` whether it
     * produced a partition, `verified` whether esp_partition_verify found it.
     * The device's status is never looked at.
     */
    method RegisterPartition(partLabel: string, size: uint32, ret: EspErr, registered: bool, verified: bool)
      returns (ok: bool)
      modifies this`partition
      ensures registered ==> partition == Some(Partition(partLabel, PARTITION_OFFSET, size))
      ensures !registered ==> partition == None
      ensures ok <==> registered && verified && ret == ESP_OK
    {
      partition := if registered then Some(Partition(partLabel, PARTITION_OFFSET, size)) else None;
      if partition == None {
        return false;
      }
      if !verified {
        return false;
      }
      return ret == ESP_OK;
    }

    /** uninstall: nothing is released; the call always reports success. */
    method Uninstall() returns (ok: bool)
      ensures ok
    {
      ok := true;
    }
  }
}
