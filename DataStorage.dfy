/**
 * The storage manager of EspDataStorage.cpp: the device registry, the
 * init-once gate, and the gated file operations over the mounted volume.
 *
 * The volume is a map from path to content. Whether the gate could be
 * taken and whether a file could be opened for writing are parameters of
 * each operation; a file can be opened for reading exactly when the volume
 * holds it, and removed exactly when the volume holds it.
 */
module DataStorage {
  import opened Wrappers
  import opened StorageDevice
  import opened SpiFlash
  import opened CStrings
  import opened FileRead

  /** Values of the C type uint8_t. */
  type uint8 = x: int | 0 <= x < 256

  type Path = string

  /** The line terminator that append and write put after the data. */
  const NEWLINE: Content := "\n"

  /** The content a file has when `append(path, data)` has run on it. */
  function Appended(files: map<Path, Content>, path: Path, data: Content): (r: Content)
  {
    (if path in files then files[path] else "") + data + NEWLINE
  }

  class EspDataStorage {
    /** `_waitTimeout_ms`. */
    var waitTimeoutMs: uint32
    /** Whether the static `mutex` has been created (is not NULL). */
    var gateCreated: bool
    /** Whether the operation now running holds the gate. */
    ghost var held: bool
    /** `devices`; a null entry is what operator[] leaves for an unknown id. */
    var devices: map<uint8, SPIFlash?>
    /** The mounted volume. */
    var files: map<Path, Content>

    constructor (volume: map<Path, Content>)
      ensures waitTimeoutMs == 0 && !gateCreated && !held
      ensures devices == map[] && files == volume
    {
      waitTimeoutMs := 0;
      gateCreated := false;
      held := false;
      devices := map[];
      files := volume;
    }

    /**
     * init: record the wait timeout (even when the call then fails) and
     * create the gate, refusing when it exists already; `created` is
     * whether xSemaphoreCreateMutex found the memory.
     */
    method Init(waitTimeout: uint32, created: bool) returns (ok: bool)
      modifies this`waitTimeoutMs, this`gateCreated
      ensures waitTimeoutMs == waitTimeout
      ensures ok <==> !old(gateCreated) && created
      ensures gateCreated <==> old(gateCreated) || created
    {
      waitTimeoutMs := waitTimeout;
      if gateCreated {
        return false;
      }
      gateCreated := created;
      if !gateCreated {
        return false;
      }
      return true;
    }

    /** xSemaphoreTake; `taken` is whether it succeeded within the timeout. */
    method Take(taken: bool) returns (ok: bool)
      requires gateCreated && !held
      modifies this`held
      ensures ok == taken && held == taken
    {
      held := taken;
      ok := taken;
    }

    /** xSemaphoreGive. */
    method Give()
      requires held
      modifies this`held
      ensures !held
    {
      held := false;
    }

    /**
     * addDevice: only a flash device is built; it enters the registry only
     * if its install() succeeds, and std::map::insert leaves an id that is
     * already present (even with a null entry) as it was, yet reports true.
     */
    method AddDevice(id: uint8, kind: DeviceType, busErr: EspErr, addErr: EspErr, initErr: EspErr,
                     chipSize: uint32, driverReady: bool)
      returns (ok: bool)
      modifies this`devices
      ensures ok <==> kind == Flash && HardwareUp(busErr, addErr, initErr) && driverReady
      ensures !ok || id in old(devices) ==> devices == old(devices)
      ensures ok && id !in old(devices) ==>
        id in devices && devices[id] != null && fresh(devices[id]) &&
        devices == old(devices)[id := devices[id]] &&
        devices[id].info == DeviceInfo(Online, Flash, chipSize) && devices[id].partition.None?
    {
      if kind == Flash {
        var device := new SPIFlash();
        var installed := device.Install(busErr, addErr, initErr, chipSize, driverReady);
        if !installed {
          return false;
        }
        if id !in devices {
          devices := devices[id := device];
        }
        return true;
      }
      return false;
    }

    /**
     * createPartition: `devices[id]` inserts a null entry for an unknown
     * id, and the call fails; for a registered device it is that device's
     * registerPartition, whose external results are `ret`, `registered` and
     * `verified`.
     */
    method CreatePartition(id: uint8, partLabel: string, size: uint32, ret: EspErr, registered: bool, verified: bool)
      returns (ok: bool)
      modifies this`devices, if id in devices && devices[id] != null then {devices[id]} else {}
      ensures old(id !in devices) ==> !ok && devices == old(devices)[id := null]
      ensures old(id in devices && devices[id] == null) ==> !ok && devices == old(devices)
      ensures old(id in devices && devices[id] != null) ==>
        devices == old(devices) &&
        (ok <==> registered && verified && ret == ESP_OK) &&
        devices[id].info == old(devices[id].info) &&
        devices[id].partition == (if registered then Some(Partition(partLabel, PARTITION_OFFSET, size)) else None)
    {
      if id !in devices {
        devices := devices[id := null];
      }
      var device := devices[id];
      if device == null {
        return false;
      }
      ok := device.RegisterPartition(partLabel, size, ret, registered, verified);
    }

    /**
     * mkfile: fails, changing nothing, when the file exists already;
     * otherwise creates it empty if opening it for writing (`created`)
     * succeeds.
     */
    method Mkfile(path: Path, taken: bool, created: bool) returns (ok: bool)
      requires gateCreated && !held
      modifies this`held, this`files
      ensures !held
      ensures ok <==> taken && path !in old(files) && created
      ensures ok ==> files == old(files)[path := ""]
      ensures !ok ==> files == old(files)
    {
      var locked := Take(taken);
      if !locked {
        return false;
      }
      if path in files {
        Give();
        return false;
      }
      if !created {
        Give();
        return false;
      }
      files := files[path := ""];
      Give();
      return true;
    }

    /**
     * read: append the file's chunks to the C string in `dest` while its
     * length stays within `bufferLen`. The string it ends with and its
     * terminator must fit in the buffer: the terminator may land at index
     * `bufferLen`. Characters past the new terminator, and past index
     * `bufferLen`, are left as they were.
     */
    method Read(path: Path, dest: array<char>, bufferLen: uint32, taken: bool) returns (ok: bool)
      requires gateCreated && !held
      requires NUL in dest[..]
      requires taken && path in files ==>
        |ReadChunks(CStr(dest[..]), files[path], bufferLen).dest| < dest.Length
      modifies this`held, dest
      ensures !held
      ensures NUL in dest[..]
      ensures !taken || path !in files ==> !ok && dest[..] == old(dest[..])
      ensures taken && path in files ==>
        ReadResult(ok, CStr(dest[..])) == ReadChunks(old(CStr(dest[..])), files[path], bufferLen)
      ensures forall k :: |CStr(dest[..])| < k < dest.Length ==> dest[k] == old(dest[k])
      ensures forall k :: bufferLen < k < dest.Length ==> dest[k] == old(dest[k])
    {
      var locked := Take(taken);
      if !locked {
        return false;
      }
      if path !in files {
        Give();
        return false;
      }
      ok := ReadLoop(files[path], dest, bufferLen);
      Give();
    }

    /**
     * read as its check was evidently meant: a chunk is refused when the
     * string and its terminator would no longer fit in `bufferLen` places,
     * so a buffer of exactly `bufferLen` chars is never overrun: nothing at
     * index `bufferLen` or beyond changes.
     */
    method ReadWithinBuffer(path: Path, dest: array<char>, bufferLen: uint32, taken: bool) returns (ok: bool)
      requires gateCreated && !held
      requires NUL in dest[..] && bufferLen <= dest.Length
      modifies this`held, dest
      ensures !held
      ensures NUL in dest[..]
      ensures !taken || path !in files ==> !ok && dest[..] == old(dest[..])
      ensures taken && path in files ==>
        ReadResult(ok, CStr(dest[..])) == ReadChunks(old(CStr(dest[..])), files[path], bufferLen - 1)
      ensures forall k :: |CStr(dest[..])| < k < dest.Length ==> dest[k] == old(dest[k])
      ensures forall k :: bufferLen <= k < dest.Length ==> dest[k] == old(dest[k])
    {
      var locked := Take(taken);
      if !locked {
        return false;
      }
      if path !in files {
        Give();
        return false;
      }
      ReadChunksBound(CStr(dest[..]), files[path], bufferLen - 1);
      ok := ReadLoop(files[path], dest, bufferLen - 1);
      Give();
    }

    /**
     * append: opened in "a" mode (`openOk` is whether fopen succeeded), the
     * file, created if absent, gains `data` and a newline.
     */
    method Append(path: Path, data: Content, taken: bool, openOk: bool) returns (ok: bool)
      requires gateCreated && !held
      modifies this`held, this`files
      ensures !held
      ensures ok <==> taken && openOk
      ensures ok ==> files == old(files)[path := Appended(old(files), path, data)]
      ensures !ok ==> files == old(files)
    {
      var locked := Take(taken);
      if !locked {
        return false;
      }
      if !openOk {
        Give();
        return false;
      }
      files := files[path := Appended(files, path, data)];
      Give();
      return true;
    }

    /**
     * write: opened in "w" mode (`openOk` is whether fopen succeeded), the
     * file's content becomes `data` and a newline.
     */
    method Write(path: Path, data: Content, taken: bool, openOk: bool) returns (ok: bool)
      requires gateCreated && !held
      modifies this`held, this`files
      ensures !held
      ensures ok <==> taken && openOk
      ensures ok ==> files == old(files)[path := data + NEWLINE]
      ensures !ok ==> files == old(files)
    {
      var locked := Take(taken);
      if !locked {
        return false;
      }
      if !openOk {
        Give();
        return false;
      }
      files := files[path := data + NEWLINE];
      Give();
      return true;
    }

    /** rm: remove() succeeds exactly when the file exists. */
    method Rm(path: Path, taken: bool) returns (ok: bool)
      requires gateCreated && !held
      modifies this`held, this`files
      ensures !held
      ensures ok <==> taken && path in old(files)
      ensures files == if ok then old(files) - {path} else old(files)
    {
      var locked := Take(taken);
      if !locked {
        return false;
      }
      if path !in files {
        Give();
        return false;
      }
      files := files - {path};
      Give();
      return true;
    }
  }
}
