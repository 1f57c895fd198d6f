/**
 * The types of include/StorageDevice.h and the helpers of StorageDevice.cpp:
 * the status and type enumerations, the info record, and the two switches
 * that turn an enumeration value into its display name.
 */
module StorageDevice {
  import opened Wrappers

  /** Values of the C type uint32_t. */
  type uint32 = x: int | 0 <= x < 0x1_0000_0000

  datatype Status = Online | Offline | Corrupt

  datatype DeviceType = Unknown | Flash | SD

  /** StorageDeviceInfo_t. */
  datatype DeviceInfo = DeviceInfo(status: Status, kind: DeviceType, capacity: uint32)

  /** The C value of each status enumerator (ONLINE = 0, then in order). */
  function StatusCode(s: Status): (code: int)
  {
    match s
    case Online => 0
    case Offline => 1
    case Corrupt => 2
  }

  /** The C value of each type enumerator (UNKNOWN = 0, then in order). */
  function TypeCode(t: DeviceType): (code: int)
  {
    match t
    case Unknown => 0
    case Flash => 1
    case SD => 2
  }

  /** The status enumerator a raw C value stands for, if it stands for one. */
  function StatusFromCode(code: int): (s: Option<Status>)
    ensures s.Some? ==> StatusCode(s.value) == code
    ensures s.None? ==> forall t: Status :: StatusCode(t) != code
  {
    if code == 0 then Some(Online)
    else if code == 1 then Some(Offline)
    else if code == 2 then Some(Corrupt)
    else None
  }

  /** The type enumerator a raw C value stands for, if it stands for one. */
  function TypeFromCode(code: int): (t: Option<DeviceType>)
    ensures t.Some? ==> TypeCode(t.value) == code
    ensures t.None? ==> forall u: DeviceType :: TypeCode(u) != code
  {
    if code == 0 then Some(Unknown)
    else if code == 1 then Some(Flash)
    else if code == 2 then Some(SD)
    else None
  }

  /**
   * storageDeviceStatusToName: a switch over the raw status value; None is the
   * NULL returned after the switch for a value no enumerator has.
   */
  function StatusToName(stat: int): (name: Option<string>)
    ensures name.Some? <==> StatusFromCode(stat).Some?
    ensures name.Some? ==> |name.value| > 0
  {
    if stat == StatusCode(Online) then Some("ONLINE")
    else if stat == StatusCode(Offline) then Some("OFFLINE")
    else if stat == StatusCode(Corrupt) then Some("CORRUPTED")
    else None
  }

  /**
   * storageDeviceTypeToName: a switch over the raw type value; None is the
   * NULL returned after the switch for a value no enumerator has.
   */
  function TypeToName(kind: int): (name: Option<string>)
    ensures name.Some? <==> TypeFromCode(kind).Some?
    ensures name.Some? ==> |name.value| > 0
  {
    if kind == TypeCode(Unknown) then Some("UNKNOWN")
    else if kind == TypeCode(Flash) then Some("FLASH")
    else if kind == TypeCode(SD) then Some("SD")
    else None
  }

  /** Every status enumerator has a name, and it is the expected one. */
  lemma StatusNames(s: Status)
    ensures StatusToName(StatusCode(s)) == Some(
      match s
      case Online => "ONLINE"
      case Offline => "OFFLINE"
      case Corrupt => "CORRUPTED")
  {
  }

  /** Every type enumerator has a name, and it is the expected one. */
  lemma TypeNames(t: DeviceType)
    ensures TypeToName(TypeCode(t)) == Some(
      match t
      case Unknown => "UNKNOWN"
      case Flash => "FLASH"
      case SD => "SD")
  {
  }

  /** Distinct status values never share a name. */
  lemma StatusToNameInjective(a: int, b: int)
    requires StatusToName(a).Some? && StatusToName(a) == StatusToName(b)
    ensures a == b
  {
  }

  /** Distinct type values never share a name. */
  lemma TypeToNameInjective(a: int, b: int)
    requires TypeToName(a).Some? && TypeToName(a) == TypeToName(b)
    ensures a == b
  {
  }
}
