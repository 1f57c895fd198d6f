/**
 * Callers of the storage manager: what a sequence of calls on a freshly
 * built manager is guaranteed to return, from the contracts alone.
 */
module Scenarios {
  import opened StorageDevice
  import opened SpiFlash
  import opened CStrings
  import opened FileRead
  import opened DataStorage

  /** A second init fails while the gate exists, but its timeout is kept. */
  method InitTwice(volume: map<Path, Content>, firstTimeout: uint32, secondTimeout: uint32)
    returns (first: bool, second: bool, timeout: uint32)
    ensures first && !second && timeout == secondTimeout
  {
    var storage := new EspDataStorage(volume);
    first := storage.Init(firstTimeout, true);
    second := storage.Init(secondTimeout, true);
    timeout := storage.waitTimeoutMs;
  }

  /**
   * createPartition on an unknown id leaves a null entry; a later addDevice
   * for that id installs a device and reports success, but the null entry
   * stays, so the next createPartition fails as well.
   */
  method UnknownIdStaysUnusable(id: uint8, partLabel: string, size: uint32, chipSize: uint32)
    returns (first: bool, added: bool, second: bool)
    ensures !first && added && !second
  {
    var storage := new EspDataStorage(map[]);
    first := storage.CreatePartition(id, partLabel, size, ESP_OK, true, true);
    added := storage.AddDevice(id, Flash, ESP_OK, ESP_OK, ESP_OK, chipSize, true);
    second := storage.CreatePartition(id, partLabel, size, ESP_OK, true, true);
  }

  /** A freshly added device takes a partition whenever the external layer accepts it. */
  method AddThenPartition(id: uint8, partLabel: string, size: uint32, chipSize: uint32)
    returns (added: bool, created: bool, info: DeviceInfo)
    ensures added && created && info == DeviceInfo(Online, Flash, chipSize)
  {
    var storage := new EspDataStorage(map[]);
    added := storage.AddDevice(id, Flash, ESP_OK, ESP_OK, ESP_OK, chipSize, true);
    created := storage.CreatePartition(id, partLabel, size, ESP_OK, true, true);
    info := storage.devices[id].GetInfo();
  }

  /** Two appends to a new file leave both payloads, each with its newline, in order. */
  method AppendTwice(path: Path, first: Content, second: Content)
    returns (content: Content)
    ensures content == first + "\n" + second + "\n"
  {
    var storage := new EspDataStorage(map[]);
    var _ := storage.Init(500, true);
    var _ := storage.Append(path, first, true, true);
    var _ := storage.Append(path, second, true, true);
    content := storage.files[path];
  }

  /**
   * write followed by read, as written, into a zeroed buffer of `bufferLen`
   * chars passed with its own size, as the example program does: a file
   * shorter than the buffer is read whole.
   */
  method WriteThenReadAsWritten(path: Path, data: Content, bufferLen: uint32)
    returns (ok: bool, text: string)
    requires |data| + 1 < bufferLen
    ensures ok && text == data + "\n"
  {
    var storage := new EspDataStorage(map[]);
    var _ := storage.Init(500, true);
    var _ := storage.Write(path, data, true, true);
    var dest := new char[bufferLen](_ => NUL);
    assert dest[..][0] == NUL;
    StrLenAt(dest[..], 0);
    ReadFitsShorterFile("", data + NEWLINE, bufferLen, dest.Length);
    ok := storage.Read(path, dest, bufferLen, true);
    ReadChunksSucceeds("", data + NEWLINE, bufferLen);
    ReadChunksContent("", data + NEWLINE, bufferLen);
    var n := StrLenOf(dest);
    text := dest[..n];
  }

  /**
   * write followed by a read into a zeroed buffer of `bufferLen` chars
   * (called the way the example program calls it) yields the data and its
   * newline.
   */
  method WriteThenRead(path: Path, data: Content, bufferLen: uint32)
    returns (ok: bool, text: string)
    requires |data| + 1 < bufferLen
    ensures ok && text == data + "\n"
  {
    var storage := new EspDataStorage(map[]);
    var _ := storage.Init(500, true);
    var written := storage.Write(path, data, true, true);
    var dest := new char[bufferLen](_ => NUL);
    assert dest[..][0] == NUL;
    StrLenAt(dest[..], 0);
    ok := storage.ReadWithinBuffer(path, dest, bufferLen, true);
    ReadWithinBufferFits("", data + NEWLINE, bufferLen);
    var n := StrLenOf(dest);
    text := dest[..n];
  }
}
