# EspDataStorage in Dafny

A model of the storage manager of EspDataStorage, a small storage layer for ESP32 devices. The manager keeps a
registry of storage devices by a one-byte id. It creates partitions on them through the device. It guards every
file operation on the mounted LittleFS volume with one FreeRTOS mutex, called the gate here. The model covers
three source files:

- `EspDataStorage.cpp`: the `EspDataStorage` class, written as the class `DataStorage.EspDataStorage`. It has the
  device map, the init-once gate, and `mkfile`, `read`, `append`, `write` and `rm` over an abstract volume. The
  volume is a map from path to file content.
- `SPIFlash.cpp`: the class `SpiFlash.SPIFlash`. Its `install` resets and then fills in the `info` record step by
  step. `registerPartition` combines three external results into one boolean. `uninstall` always succeeds.
- `StorageDevice.cpp` and `include/StorageDevice.h`: the status and type enumerations, their two name switches,
  and `getInfo`.

Every call into ESP-IDF, FreeRTOS or the C library that the code cannot see is a parameter. Each operation
receives what that call returned:

- `taken`: whether `xSemaphoreTake` got the gate in time;
- `created`, `openOk`: whether `xSemaphoreCreateMutex` or `fopen` for writing succeeded;
- `busErr`, `addErr`, `initErr`, `ret`: the `esp_err_t` results of the hardware and partition calls;
- `registered`, `verified`: whether partition registration produced a partition and whether verification found it;
- `chipSize`: the chip's `device->size`;
- `driverReady`: the result of `esp_flash_chip_driver_initialized`.

Opening a file for reading succeeds exactly when the volume holds it. `remove` succeeds exactly when the volume
holds the file. The ghost field `held` records whether the running operation holds the gate. Every gated method
starts without it and ensures it is released on every return path.

The C string functions that `read` relies on live in `CStrings`: `strlen` (as `StrLen` and `StrLenOf`), `strcat`
and `fgets`. The caller's buffer is an `array<char>` holding a NUL-terminated string. `FileRead.ReadLoop` is the
`while (fgets…)` loop working in place on that array; `FileRead.ReadStep` is one pass of its body. The loop's
contract ties the buffer's new string to the specification function `FileRead.ReadChunks`. Lemmas then prove
what that function returns.

Some behaviour of the code, as the model states it:
- `mkfile` fails, changing nothing, on an existing file; it does not mean "ensure the file exists".
- `read` has no start offset and no terminator byte; it only succeeds or fails.
- `registerPartition` never looks at the device's status, so an offline device is not refused.
- `addDevice` with an id already present keeps the old entry and still returns true.

## Model

| member | source | states |
|---|---|---|
| `StorageDevice.StatusFromCode` | include/StorageDevice.h:6-10 | decoding a raw status value gives the enumerator with that C value, and nothing for a value no enumerator has |
| `StorageDevice.TypeFromCode` | include/StorageDevice.h:12-16 | decoding a raw type value gives the enumerator with that C value, and nothing for a value no enumerator has |
| `StorageDevice.StatusToName` | StorageDevice.cpp:7-17 | the name is non-NULL exactly for values of the status enumeration, and never empty |
| `StorageDevice.TypeToName` | StorageDevice.cpp:19-29 | the name is non-NULL exactly for values of the type enumeration, and never empty |
| `StorageDevice.StatusNames` | StorageDevice.cpp:7-15 | ONLINE, OFFLINE and CORRUPT are named "ONLINE", "OFFLINE" and "CORRUPTED" |
| `StorageDevice.TypeNames` | StorageDevice.cpp:19-27 | UNKNOWN, FLASH and SD are named "UNKNOWN", "FLASH" and "SD" |
| `StorageDevice.StatusToNameInjective` | StorageDevice.cpp:7-17 | two status values with the same non-NULL name are the same value |
| `StorageDevice.TypeToNameInjective` | StorageDevice.cpp:19-29 | two type values with the same non-NULL name are the same value |
| `SpiFlash.SPIFlash.constructor` | EspDataStorage.cpp:36 | a value-initialised device has the all-zero info record (ONLINE, UNKNOWN, 0) and no partition |
| `SpiFlash.SPIFlash.GetInfo` | StorageDevice.cpp:37-39 | returns the stored info record unchanged and reads nothing else |
| `SpiFlash.SPIFlash.Install` | SPIFlash.cpp:56-98 | if bus init, device add and flash init all succeed, info becomes ONLINE / FLASH / chip size; otherwise it stays at the reset OFFLINE / UNKNOWN / 0; the result is "all three succeeded and the driver is initialised", so it can be false while info is ONLINE |
| `SpiFlash.SPIFlash.RegisterPartition` | SPIFlash.cpp:30-54 | the partition field becomes the partition at offset 0x1000 with the given label and size, or NULL; the result is true exactly when a partition was produced, it verified, and the error code is ESP_OK; info is neither read nor changed |
| `SpiFlash.SPIFlash.Uninstall` | SPIFlash.cpp:100-102 | always returns true and changes nothing |
| `CStrings.StrLen` | EspDataStorage.cpp:189 | strlen is the index of the first NUL: a NUL at that index and none before it |
| `CStrings.StrLenAt` | EspDataStorage.cpp:189 | any index holding a NUL with none before it is the string's length |
| `CStrings.StrLenOf` | EspDataStorage.cpp:189 | scanning the buffer for the terminator gives the length of the C string it holds |
| `CStrings.CopyAt` | EspDataStorage.cpp:194 | strcat's copy loop puts the line at the given index and leaves everything before and after it untouched |
| `CStrings.StrCat` | EspDataStorage.cpp:194 | the buffer's string becomes its old string followed by the line, still terminated, and nothing past the new terminator changes |
| `CStrings.Fgets` | EspDataStorage.cpp:187-188 | one fgets call takes a non-empty prefix of the unread file, at most 99 chars, with no newline before its last char, and stops only at end of file, at 99 chars or after a newline |
| `FileRead.ReadChunksSucceeds` | EspDataStorage.cpp:188-199 | read succeeds exactly when the file is empty or the old string plus the whole file fits in bufferLen characters (equality allowed) |
| `FileRead.ReadChunksContent` | EspDataStorage.cpp:188-199 | on success the buffer holds its old string followed by the whole file; on overflow it holds a proper prefix of that which extends the old string, and the next chunk is exactly the one that would pass bufferLen |
| `FileRead.ReadChunksBound` | EspDataStorage.cpp:188-195 | once any chunk has been appended, the string length never exceeds bufferLen |
| `FileRead.ReadStep` | EspDataStorage.cpp:187-194 | one pass of the loop body refuses the next fgets chunk exactly when the string plus the chunk would pass the limit, leaving the buffer as it was; otherwise the string gains the chunk, the read position moves past it, and nothing past the new terminator changes |
| `FileRead.ReadLoop` | EspDataStorage.cpp:187-199 | given a buffer with room for the final string and its terminator, the in-place loop leaves it terminated and holding the string, and returns the outcome, that the chunk specification gives for the old string and the file; nothing past the new terminator or past index limit changes |
| `FileRead.ReadFitsShorterFile` | EspDataStorage.cpp:188-194 | the final string is never longer than the old string plus the whole file, so a file shorter than a buffer that starts empty always leaves room for the terminator |
| `FileRead.ReadAsWrittenFillsBuffer` | EspDataStorage.cpp:189-194 | with the check as written, a file of exactly bufferLen characters read into an empty string is accepted whole, so the terminator goes to index bufferLen |
| `FileRead.ReadWithinBufferFits` | EspDataStorage.cpp:189 | with the corrected check, appended text always leaves the terminator inside bufferLen places, and a file that fits with its terminator is read whole |
| `DataStorage.EspDataStorage.constructor` | EspDataStorage.cpp:14 | a new manager has no gate, no devices and a zero timeout over the given volume |
| `DataStorage.EspDataStorage.Init` | EspDataStorage.cpp:18-32 | the timeout is overwritten on every call; the call succeeds exactly when no gate existed and creating one succeeded, and the gate exists afterwards exactly when it existed before or was just created |
| `DataStorage.EspDataStorage.Take` | EspDataStorage.cpp:147-150 | taking the gate succeeds exactly when the timed wait did, and then the gate is held |
| `DataStorage.EspDataStorage.Give` | EspDataStorage.cpp:156 | giving the gate leaves it not held |
| `DataStorage.EspDataStorage.AddDevice` | EspDataStorage.cpp:34-49 | true exactly for a FLASH device whose install returns true; the map changes only then, and only for an id not yet present, which gets a fresh device that is ONLINE / FLASH / chip size with no partition; an id already present (even with a null entry) keeps its entry while the call still returns true |
| `DataStorage.EspDataStorage.CreatePartition` | EspDataStorage.cpp:51-64 | an unknown id fails and gets a null entry; an id with a null entry fails and changes nothing; a registered device returns exactly its registerPartition result, gets the partition, and keeps its info |
| `DataStorage.EspDataStorage.Mkfile` | EspDataStorage.cpp:146-171 | true exactly when the gate was taken, the path is absent and creation succeeded, and then the path holds an empty file; every other outcome changes nothing; the gate is released |
| `DataStorage.EspDataStorage.Read` | EspDataStorage.cpp:173-200 | needs only that the buffer has room for the string the read ends with and its terminator; a failed take or a missing file returns false and leaves the buffer untouched; otherwise the result and the buffer's string are what the chunk specification gives for the old string and the file; nothing past the new terminator or past index bufferLen changes; the gate is released |
| `DataStorage.EspDataStorage.ReadWithinBuffer` | EspDataStorage.cpp:173-200 | read with the size check refusing to fill the last place: needs only bufferLen places, has the same outcomes as read for a limit one less, and changes nothing at index bufferLen or beyond |
| `DataStorage.EspDataStorage.Append` | EspDataStorage.cpp:202-220 | true exactly when the gate was taken and the file opened; then the file, created if absent, gains the data and a newline; otherwise nothing changes; the gate is released |
| `DataStorage.EspDataStorage.Write` | EspDataStorage.cpp:222-240 | true exactly when the gate was taken and the file opened; then the file holds just the data and a newline; otherwise nothing changes; the gate is released |
| `DataStorage.EspDataStorage.Rm` | EspDataStorage.cpp:242-257 | true exactly when the gate was taken and the file exists; then it is gone and nothing else changes; otherwise nothing changes; the gate is released |
| `Scenarios.InitTwice` | EspDataStorage.cpp:18-24 | a second init while the gate exists fails, yet the timeout it passed is kept |
| `Scenarios.UnknownIdStaysUnusable` | EspDataStorage.cpp:44-55 | createPartition on an unknown id fails, a following addDevice for that id reports success, and createPartition on it still fails |
| `Scenarios.AddThenPartition` | EspDataStorage.cpp:34-63 | after a successful addDevice, createPartition succeeds when the external layer accepts, and the device reports ONLINE / FLASH / chip size |
| `Scenarios.AppendTwice` | EspDataStorage.cpp:202-220 | two appends to a new file leave both payloads, each followed by a newline, in call order |
| `Scenarios.WriteThenReadAsWritten` | EspDataStorage.cpp:173-240 | write then read as written, into a zeroed buffer passed with its own size (as the example program calls it), returns true and yields exactly the data and its newline when the data and newline are shorter than the buffer |
| `Scenarios.WriteThenRead` | EspDataStorage.cpp:173-240 | write then read into a zeroed buffer of bufferLen chars, with the corrected check, returns true and yields exactly the data and its newline |

## Left out

- `mount` (EspDataStorage.cpp:66-79): it only calls `LittleFS.begin` and `esp_littlefs_info`; the volume is given to the constructor instead.
- `listDir` and `print` (EspDataStorage.cpp:81-144): their only output is logging and `printf`.
- The gate's timing, cross-task serialisation and waiting: the model has no concurrency. A take is a success flag, and `pdMS_TO_TICKS` is not modelled.
- The mutex is a process-wide static, but the model keeps the gate flag in the manager object. Two managers would share one gate in the source.
- The pin numbers of `install` and the bus and flash configuration in `initSPIbus` and `addFlashDevice` (SPIFlash.cpp:9-28). They only configure hardware; their results are the error-code parameters.
- `esp_flash_read_id` (SPIFlash.cpp:89): its result is never used.
- Partition registration assumes the out-parameter starts as NULL, so a failed registration leaves no partition. ESP-IDF's `esp_partition_register_external` clears it first.
- `fclose(NULL)` on the failure paths: undefined behaviour. These paths are modelled as returning false with the gate released.
- The unchecked `fprintf` results in `append` and `write`: an opened file is always written in full.
- File content and the data passed to `append` and `write` contain no NUL (type `CStrings.Content`).
- The volume holds files only. Directories, and opening a directory with `fopen`, are not modelled.
- `printInfo` and all `ESP_LOG*` calls: logging only.
- The `if (device)` test in `addDevice`: `std::make_shared` never yields null, so it always passes.
- Only the flash variant of the abstract `StorageDevice` class exists. Its `info` field and `getInfo` live in `SpiFlash.SPIFlash`.
- `example/main/main.cpp`, `include/EspDataStorage.h` and `include/SPIFlash.h`: the demo calls functions these sources do not have, and the two headers disagree with the `.cpp` files. Only the buffer size convention of the demo's `read` call is used, in the finding below.

## Findings

| source | as written | input that shows it | evidently intended | confidence | as-written member | corrected member |
|---|---|---|---|---|---|---|
| EspDataStorage.cpp:189 | `bufferLen < strlen(dest) + strlen(line)` accepts a chunk that brings the string to exactly `bufferLen` chars, and `strcat` then writes the terminating NUL at `dest[bufferLen]` | `char buf[4] = {0}; read(path, buf, sizeof(buf))` on a file holding `"abc\n"` (so after `write(path, "abc")`): 4 < 0 + 4 is false, and the NUL is written to `buf[4]`. The example program calls `read` this way with a 10000-char buffer. In the model this call is exactly the case that `Read`'s precondition (room for the final string and its terminator) refuses | refuse the chunk when string plus terminator would not fit, `bufferLen <= strlen(dest) + strlen(line)`, so a buffer of `bufferLen` chars suffices | high; not executed | `FileRead.ReadAsWrittenFillsBuffer` | `DataStorage.EspDataStorage.ReadWithinBuffer` |
