# ESP32-CAM robust video stream server — a verified model of its core

This project models the firmware core of an ESP32-CAM video server in Dafny
and proves properties of that model. The core covers:

- the OV2640 sensor driver: its SCCB register bus, the register programmes
  for identity check, initialisation table, frame size, JPEG quality, levels
  and mirror/flip, and the I2S driver's frame-buffer slots and bring-up;
- the camera manager: initialisation with error classification and warm-up
  flush, the quality and resolution policies, capture and release;
- the PIR motion sensor with its debounce, and the motion-triggered
  recording state machine;
- SD-card storage: file operations and the length-prefixed MJPEG recording
  format;
- the configuration: defaults, validation, loading from SD or NVS, saving,
  and reset;
- the captive portal's priority sort, its connection attempts and its scan
  listing;
- the diagnostics counters, frame-rate window, error rate and health
  verdict;
- the HTTP handlers for `/capture`, `/stream`, `/control` and
  `/wifi/connect`.

Every module corresponds to one source file:

| module | models |
|---|---|
| `Sccb` (sccb.dfy) | the SCCB register bus of `src/camera_i2s_driver.cpp` |
| `Ov2640` (ov2640.dfy) | the sensor routines of `src/camera_i2s_driver.cpp` |
| `CameraI2s` (camera_i2s.dfy) | the I2S driver routines of `src/camera_i2s_driver.cpp` |
| `CameraPolicy` (camera_policy.dfy) | `src/camera.cpp` |
| `MotionSensor` (motion_sensor.dfy) | `src/motion_sensor.cpp` |
| `MotionMonitoring` (motion_monitoring.dfy) | `src/motion_monitoring.cpp` |
| `Storage` (storage.dfy) | `src/storage.cpp` |
| `Config` (config.dfy) | `src/config.cpp` and `include/config.h` |
| `CaptivePortal` (captive_portal.dfy) | `src/captive_portal.cpp` |
| `Diagnostics` (diagnostics.dfy) | `src/diagnostics.cpp` |
| `WebServer` (web_server.dfy) | `src/web_server.cpp` |
| `Common`, `Json` | ESP error codes, 32-bit unsigned arithmetic and decimal text; ArduinoJson documents and their defaulting lookups |

Form follows the source:

- State the firmware updates in place becomes a class whose methods carry
  `modifies` clauses. Examples: the register bus, the driver and its slot
  array, the camera manager, the sensor, the SD card, the configuration
  store with its `networks` array, and the diagnostics counters.
- Each such method is proved against a specification function of the old
  state and the inputs. The lemmas state the properties of that function.
- Results of hardware and foreign library calls are inputs to the methods:
  bus acknowledgements, `esp_camera` results, file-system results,
  `millis()`, WiFi status and RSSI, socket sends, JSON parse results and
  connection outcomes.
- `unsigned long` time arithmetic is modelled modulo 2^32. `strtol`/`atoi`
  is modelled with its saturation to the `int` range.

## Model

| member | source | states |
|---|---|---|
| Sccb.Write | src/camera_i2s_driver.cpp:101-113 | a register write changes the addressed register of the selected bank (or the bank selector) and nothing else |
| Sccb.Acked | src/camera_i2s_driver.cpp:101-113 | only writes to addresses the device acknowledges take effect |
| Sccb.ReadsChangeNothing | src/camera_i2s_driver.cpp:115-133 | register reads never change the sensor's registers and are never counted as writes |
| Sccb.AfterAppend | src/camera_i2s_driver.cpp:101-137 | running two register programmes one after the other is running their concatenation |
| Sccb.Bus.WriteReg | src/camera_i2s_driver.cpp:101-113 | logs the write and fails exactly when the device does not acknowledge the address |
| Sccb.Bus.ReadReg | src/camera_i2s_driver.cpp:115-133 | fails when the address is not acknowledged or no byte comes back, and then hands back the byte the caller never set; on success returns the register's value; the registers are unchanged either way |
| Sccb.Bus.SelectBank | src/camera_i2s_driver.cpp:135-137 | writes the bank selector; on acknowledgement the bank changes and the register contents do not |
| Ov2640.TableWrites | src/camera_i2s_driver.cpp:140-167 | the writes an init table issues are table entries, never the terminator or the delay marker |
| Ov2640.TableRunIsPrefix | src/camera_i2s_driver.cpp:194-205 | the writes issued are a prefix of the table's writes, and all of them when the table completes |
| Ov2640.TableRunCompletes | src/camera_i2s_driver.cpp:194-205 | the table completes if and only if every address it writes is acknowledged |
| Ov2640.TableRunStops | src/camera_i2s_driver.cpp:194-205 | an aborted table stops at the first unacknowledged write, and every earlier write was acknowledged |
| Ov2640.WriteTable | src/camera_i2s_driver.cpp:194-205 | issues exactly the table run's writes and returns ESP_OK if and only if the run completes |
| Ov2640.InitRejected | src/camera_i2s_driver.cpp:174-191 | a failed ID read or a wrong product ID leaves only the bank selection in effect: no table write lands |
| Ov2640.InitAccepted | src/camera_i2s_driver.cpp:169-209 | init succeeds if and only if both ID registers read, the product ID is 0x26 and every table write is acknowledged; on success exactly the table's writes land |
| Ov2640.Init | src/camera_i2s_driver.cpp:169-209 | issues the ID reads and then the table, and returns ESP_OK exactly when init succeeds |
| Ov2640.SizeRoundTrip | src/camera_i2s_driver.cpp:219-222 | the `>> 3` and `& 0xFF` register split of a size below 2048 decodes back to that size |
| Ov2640.DimensionsOrdered | src/camera_i2s_driver.cpp:217-266 | larger frame-size codes have strictly more pixels, and every size fits 11 bits |
| Ov2640.FramesizeWrites | src/camera_i2s_driver.cpp:211-271 | a known size writes the DSP bank, then width and height decodable back to the size, then the mode and reset registers; an unknown size writes only the bank |
| Ov2640.SetFramesize | src/camera_i2s_driver.cpp:211-271 | issues the frame-size programme and fails exactly for an unknown size |
| Ov2640.ClampQuality | src/camera_i2s_driver.cpp:273-286 | the quality written is at most 63 and equals the request when it is at most 63 |
| Ov2640.SetQuality | src/camera_i2s_driver.cpp:273-286 | issues the bank selection and the clamped quality write and returns ESP_OK |
| Ov2640.LevelEncoding | src/camera_i2s_driver.cpp:288-317 | levels -2..2 are written as 32 + 16*level and read back to the level; levels 16 apart collide in the byte |
| Ov2640.SetBrightness | src/camera_i2s_driver.cpp:288-297 | issues the brightness programme and returns ESP_OK |
| Ov2640.SetContrast | src/camera_i2s_driver.cpp:299-307 | issues the contrast programme and returns ESP_OK |
| Ov2640.SetSaturation | src/camera_i2s_driver.cpp:309-317 | issues the saturation programme and returns ESP_OK |
| Ov2640.WithBit | src/camera_i2s_driver.cpp:319-349 | the mirror or flip bit is set or cleared as asked, and every other bit of REG04 is kept |
| Ov2640.RmwEffect | src/camera_i2s_driver.cpp:319-349 | read-modify-write changes only REG04 in the sensor bank, by exactly that bit; when REG04 is acknowledged but its read fails, REG04 is written with the bit as asked and its other bits from an unset value; when REG04 is not acknowledged only the bank selection changes |
| Ov2640.SetHmirror | src/camera_i2s_driver.cpp:319-333 | issues the read-modify-write of the mirror bit and returns ESP_OK |
| Ov2640.SetVflip | src/camera_i2s_driver.cpp:335-349 | issues the read-modify-write of the flip bit and returns ESP_OK |
| CameraI2s.TestJpeg | src/camera_i2s_driver.cpp:677-703 | the test image is 139 bytes, fits a JPEG buffer, and starts with SOI and ends with EOI |
| CameraI2s.FirstFree | src/camera_i2s_driver.cpp:720-738 | the slot found is free and every earlier slot is in use; none is found exactly when all are in use |
| CameraI2s.FirstFreeIsLowest | src/camera_i2s_driver.cpp:720-738 | the lowest free slot is the one handed out |
| CameraI2s.ClaimFresh | src/camera_i2s_driver.cpp:720-738 | claiming adds exactly the found slot to the in-use set, and that slot was not in use |
| CameraI2s.ReleaseRemoves | src/camera_i2s_driver.cpp:745-760 | returning a slot removes exactly that slot from the in-use set |
| CameraI2s.InitHoldsOnlyOnSuccess | src/camera_i2s_driver.cpp:531-598 | with the corrected cleanup, buffers are held after init only when allocation succeeded, and then all of them |
| CameraI2s.MutexFailureLeaksAsWritten | src/camera_i2s_driver.cpp:590-598 | as written, when the clock, the sensor and I2S come up and the slot array and every JPEG buffer allocate but mutex creation fails, `camera_i2s_init` returns ESP_ERR_NO_MEM and leaves all `fbCount` JPEG buffers allocated and unreachable (`LeakedByInit`), which `Driver.Init` adds to `leakedBuffers` |
| CameraI2s.Driver.BringUpSensor | src/camera_i2s_driver.cpp:513-521 | issues the sensor init then the frame size and quality, and succeeds exactly when the sensor init does |
| CameraI2s.Driver.AllocateBuffers | src/camera_i2s_driver.cpp:531-598 | allocates n fresh slots on success and reports ESP_ERR_NO_MEM otherwise; the slots reach n buffers only on success, and as written a mutex failure moves the n allocated buffers to `leakedBuffers` while a failed buffer allocation frees what it took |
| CameraI2s.Driver.Init | src/camera_i2s_driver.cpp:467-617 | a second init is a no-op success that changes no field; otherwise the result, the register programme, the fresh free slots and the leaked buffers follow the bring-up and allocation results; the sensor settings never change and capture starts only on success |
| CameraI2s.Driver.Deinit | src/camera_i2s_driver.cpp:619-670 | stops capture, frees every buffer the slots reach and clears the initialised flag; it is harmless when not initialised, and it never frees leaked buffers |
| CameraI2s.Driver.FbGet | src/camera_i2s_driver.cpp:705-743 | returns the lowest free slot and claims it; returns NULL without change when uninitialised, when the mutex times out or when no slot is free |
| CameraI2s.Driver.FbReturn | src/camera_i2s_driver.cpp:745-760 | frees exactly the returned slot; NULL, frames from outside the pool and the uninitialised driver change nothing |
| CameraI2s.Driver.SensorSet | src/camera_i2s_driver.cpp:762-777 | when initialised, stores the settings and issues the levels and orientation programmes; otherwise fails without change |
| CameraI2s.ApplyLevels | src/camera_i2s_driver.cpp:770-772 | issues brightness, contrast and saturation programmes in order |
| CameraI2s.ApplyOrientation | src/camera_i2s_driver.cpp:773-774 | issues the mirror and flip read-modify-writes in order |
| CameraPolicy.QualityForRssi | src/camera.cpp:278-293 | the JPEG quality chosen from the signal strength is always within 10..22 |
| CameraPolicy.QualityMonotone | src/camera.cpp:278-293 | a stronger signal never gives a worse (higher) quality number |
| CameraPolicy.StepsFollowLadder | src/camera.cpp:323-344 | stepping down or up moves one rung on the QVGA-CIF-VGA-SVGA ladder and stops at its ends |
| CameraPolicy.StepsOffLadder | src/camera.cpp:323-344 | sizes off the ladder are never stepped |
| CameraPolicy.StepsInverse | src/camera.cpp:323-344 | stepping up then down, or down then up, returns to the same size away from the ends |
| CameraPolicy.StepDownShrinks | src/camera.cpp:323-333 | stepping down strictly shrinks both width and height |
| CameraPolicy.ResolutionTarget | src/camera.cpp:306-360 | a change is proposed only for a usable frame rate and only to a different size |
| CameraPolicy.ResolutionTargetRules | src/camera.cpp:306-360 | below 5 fps the size steps down, above 20 fps with PSRAM it steps up, otherwise (or off the ladder, or for an invalid rate) nothing changes |
| CameraPolicy.ClassifyInitError | src/camera.cpp:103-124 | the five known init errors get their own class and every other code is kept as unrecognised |
| CameraPolicy.FlushReturnsGrabbed | src/camera.cpp:160-174 | the warm-up flush makes one get per attempt and returns exactly the frames it got |
| CameraPolicy.Camera.Flush | src/camera.cpp:160-174 | performs the flush calls and counts the frames grabbed |
| CameraPolicy.Camera.Init | src/camera.cpp:11-215 | succeeds exactly when the library init succeeds and a sensor is found; records attempts, failures and the classified error; deinitialises when the sensor is missing; flushes and applies settings on success; the new diagnostics and calls are those of `DiagAfterInit` and `InitCalls` |
| CameraPolicy.Camera.Deinit | src/camera.cpp:362-369 | an initialised camera is deinitialised and marked sleeping; otherwise nothing happens |
| CameraPolicy.Camera.Reinit | src/camera.cpp:371-375 | a deinit (a library call only when the camera was initialised) followed by the calls and diagnostics of one init; succeeds exactly as init does; on failure the camera is not initialised and is marked sleeping exactly when it was initialised or sleeping before |
| CameraPolicy.Camera.CaptureFrame | src/camera.cpp:377-400 | a sleeping or uninitialised camera yields no frame and makes no call; otherwise one frame get |
| CameraPolicy.Camera.ReleaseFrame | src/camera.cpp:402-406 | returns a non-NULL frame and ignores NULL |
| CameraPolicy.Camera.AdjustQualityBasedOnWiFi | src/camera.cpp:266-304 | when connected the quality follows the signal, and the sensor is written only when it changes |
| CameraPolicy.Camera.AdjustResolution | src/camera.cpp:306-360 | the frame size changes exactly when a target exists, a sensor is present and the setter succeeds |
| CameraPolicy.ResetReasonTextDistinct | src/camera.cpp:454-468 | every known reset reason has its own text; only unknown and external resets print "Unknown" |
| MotionSensor.DebounceAcrossWrap | src/motion_sensor.cpp:39-50 | a trigger is accepted exactly when at least the debounce time has elapsed, even across the 32-bit `millis()` wrap |
| MotionSensor.Sensor.Init | src/motion_sensor.cpp:58-74 | clears the motion flag and both timestamps and reports success |
| MotionSensor.Sensor.Deinit | src/motion_sensor.cpp:80-85 | clears the motion flag and the last-motion time |
| MotionSensor.Sensor.OnTrigger | src/motion_sensor.cpp:39-50 | an accepted trigger sets the flag and both timestamps to now; a bounced one changes nothing |
| MotionSensor.Sensor.IsMotionDetected | src/motion_sensor.cpp:93-100 | reports the flag and clears it, so each detection is reported once |
| MotionSensor.Sensor.ResetMotionTimer | src/motion_sensor.cpp:106-109 | sets the last-motion time to now |
| MotionSensor.Sensor.TimeSinceLastMotion | src/motion_sensor.cpp:116-121 | the maximum value before any motion; otherwise the elapsed time modulo 2^32 |
| MotionMonitoring.RecordingName | src/motion_monitoring.cpp:79-80 | the file name is the recordings prefix, digits and the `.mjpeg` suffix, and fits its buffer |
| MotionMonitoring.RecordingNameRoundTrip | src/motion_monitoring.cpp:79-80 | the digits of the file name read back to the time in seconds |
| MotionMonitoring.OnlyAllowedTransitions | src/motion_monitoring.cpp:68-159 | each pass moves only along the state machine's edges, and the detected and stopping states never persist across an active pass |
| MotionMonitoring.PausedPassChangesNothing | src/motion_monitoring.cpp:59-62 | with motion disabled or no SD card, a pass changes nothing and calls nothing |
| MotionMonitoring.IdleRule | src/motion_monitoring.cpp:68-82 | idle reads the sensor and moves to detected exactly on motion, stamping the start time and naming the file |
| MotionMonitoring.MotionDetectedRule | src/motion_monitoring.cpp:84-107 | recording starts exactly when the camera is (or becomes) initialised and the file opens; a failed camera init returns to idle |
| MotionMonitoring.RecordingRule | src/motion_monitoring.cpp:109-139 | a frame is captured exactly when the interval has elapsed, written then released; motion extends the recording, which stops exactly when the duration has elapsed since the last motion |
| MotionMonitoring.FramesReleased | src/motion_monitoring.cpp:117-130 | in every pass each frame written is released, once |
| MotionMonitoring.StoppingRule | src/motion_monitoring.cpp:142-159 | stopping finalises the file, deinitialises the camera and returns to idle |
| MotionMonitoring.Task.Step | src/motion_monitoring.cpp:47-164 | one loop pass updates the task state and issues the calls of the transition function |
| Storage.Le32 | src/storage.cpp:199-200 | the frame length prefix is four bytes |
| Storage.Le32RoundTrip | src/storage.cpp:199-200 | the little-endian prefix decodes back to the 32-bit length |
| Storage.ParseVideoRoundTrip | src/storage.cpp:192-212 | a recording of frames below 4 GiB parses back to exactly those frames |
| Storage.VideoBytesAppend | src/storage.cpp:192-212 | appending a frame appends its length-prefixed record to the file |
| Storage.RecordingReadsBack | src/storage.cpp:192-212 | after one more complete frame write, the file parses to the frames written so far plus that frame |
| Storage.SdCard.Init | src/storage.cpp:10-43 | the card is mounted exactly when the mount succeeds and a card is present |
| Storage.SdCard.Deinit | src/storage.cpp:45-50 | unmounts the card |
| Storage.SdCard.ReadFile | src/storage.cpp:62-79 | returns the file's content, or empty text when unmounted, unopenable or missing |
| Storage.SdCard.WriteFile | src/storage.cpp:81-95 | replaces the file with what was written, and succeeds only when every byte was written; afterwards `fileExists` reports the path exactly when it did before or the file could be opened |
| Storage.SdCard.DeleteFile | src/storage.cpp:97-105 | a missing path counts as deleted; an existing one is removed exactly when removal succeeds; success holds exactly when the card is mounted and `fileExists` no longer reports the path |
| Storage.SdCard.CreateDirectory | src/storage.cpp:107-115 | an existing path is success; otherwise the directory appears exactly when creation succeeds; success holds exactly when `fileExists` then reports the path |
| Storage.SdCard.InitVideoRecording | src/storage.cpp:154-182 | on a mounted card: closes a recording in progress, adds the recordings directory exactly when it was missing and mkdir succeeds, and starts an empty recording exactly when the file opens, after which `isVideoRecording` holds; a failed open leaves the files and the video path as they were; an unmounted card changes nothing |
| Storage.SdCard.WriteFrameToVideo | src/storage.cpp:192-212 | appends to the open file the bytes of the length prefix that were written (the source ignores that count, so a short or failed header write goes unnoticed) and then the frame bytes that were written; the frame counts exactly when its data was written whole, and with a whole header the file grows by exactly its `Record`, which `RecordingReadsBack` reads back |
| Storage.SdCard.FinalizeVideoRecording | src/storage.cpp:220-234 | closes an active recording and resets its count; fails when none is active; `isVideoRecording` is false afterwards |
| Config.ParseCamera | src/config.cpp:171-197 | every camera setting is assigned |
| Config.AbsentCameraKeysDefault | src/config.cpp:171-197 | a setting missing from the document takes its default |
| Config.CameraRoundTrip | src/config.cpp:171-197 | camera settings saved as JSON parse back to the same settings |
| Config.DefaultCameraWellFormed | src/config.cpp:12-35 | the defaults are well formed, with quality 10 and HVGA frame size |
| Config.ValidatedQualityInRange | src/config.cpp:46-64 | a document that passes validation loads a quality in 0..63 |
| Json.AsIntReadsText | src/config.cpp:55-56 | `int quality = camera["quality"]` converts a string holding the decimal text of any `int` to that `int` (`AsInt` also maps booleans to 0/1 and everything else to 0) |
| Config.QuotedQuality | src/config.cpp:54-60 | a quality written as decimal text passes validation exactly when its number is in 0..63, and such a quality still loads as the default 10 |
| Config.Truncate | src/config.cpp:114-115 | `strncpy` keeps a prefix no longer than the limit, and all of a short string |
| Config.Accepted | src/config.cpp:106-113 | only entries with string SSID and password are kept |
| Config.AcceptedPrefix | src/config.cpp:106-113 | the entries kept from a prefix of the list are a prefix of those kept from the whole list |
| Config.Overlay | src/config.cpp:103-168 | the loaded network table always has MAX_WIFI_NETWORKS slots |
| Config.OverlayStep | src/config.cpp:113-165 | keeping one more entry fills the next slot and leaves the others |
| Config.AddressRoundTrip | src/config.cpp:228-232 | an IPv4 address saved as a four-element array loads back unchanged |
| Json.ByteOfReadsText | src/config.cpp:120-133 | `as<uint8_t>()` converts a string holding the decimal text of a byte to that byte (`ByteOf` also maps booleans to 0/1 and anything outside 0..255 to 0) |
| Config.TextAddressLoads | src/config.cpp:120-133 | a static IP or gateway given as four decimal strings, such as `["192","168","1","5"]`, loads as those four bytes |
| Config.NetworkRoundTrip | src/config.cpp:219-243 | a well-formed network saved as JSON loads back unchanged |
| Config.SavedNetworksRoundTrip | src/config.cpp:217-243 | a saved network list loads back with the same count and the same entries |
| Config.SavedSystemRoundTrip | src/config.cpp:272-278 | the system settings saved load back unchanged |
| Config.SavedDocumentValid | src/config.cpp:46-64 | a saved document validates exactly when its quality is in 0..63 |
| Config.SaveLoadRoundTrip | src/config.cpp:214-301 | save followed by load restores the networks, their count, the camera and the system settings, whenever the quality is in range |
| Config.NetworkLoadsOver | src/config.cpp:113-136 | a saved network loaded over any slot comes back whole with static addressing, and otherwise with the slot's earlier addresses |
| Config.BootLoadRestores | src/config.cpp:103-168 | the saved document loaded over the zero-filled slots of boot restores each network in use, with 0.0.0.0 addresses unless static addressing is on, and leaves the other slots empty |
| Config.ErasedLoadFails | src/config.cpp:66-99 | with both stored copies erased the next load finds no document |
| Config.ChooseDocument | src/config.cpp:69-99 | the SD document is used when it parses and validates, otherwise the NVS one when it does, otherwise none |
| Config.Store.SetDefaults | src/config.cpp:6-44 | restores the defaults |
| Config.Store.ParseNetworks | src/config.cpp:103-168 | loads the accepted entries, at most MAX_WIFI_NETWORKS of them, over the previous table |
| Config.Store.Load | src/config.cpp:66-212 | loads the chosen document's networks (when present), camera and system settings, and changes nothing when none is chosen |
| Config.Store.Save | src/config.cpp:214-301 | produces the save document of the current configuration and succeeds when either SD or NVS stores it |
| Config.Store.Reset | src/config.cpp:303-316 | restores the defaults, erases both SD copies when the card is mounted and then the NVS copy, and reports success |
| CaptivePortal.WithPriorityAppend | src/captive_portal.cpp:128-137 | the networks of one priority in a concatenation are those of each part in order |
| CaptivePortal.SwapKeepsTies | src/captive_portal.cpp:131-135 | a swap of out-of-order neighbours keeps the multiset and the order among equal priorities |
| CaptivePortal.Compare | src/captive_portal.cpp:131-135 | one compare-exchange in place on the network array |
| CaptivePortal.CompareExchangeStep | src/captive_portal.cpp:130-136 | a compare-exchange carries the lowest priority seen so far forward and keeps the settled tail |
| CaptivePortal.BubblePass | src/captive_portal.cpp:130-136 | one pass settles one more position at the tail and only rearranges |
| CaptivePortal.SortByPriority | src/captive_portal.cpp:128-137 | the saved networks end sorted by descending priority, as a stable permutation, and nothing past the count moves |
| CaptivePortal.AttemptsFrom | src/captive_portal.cpp:140-151 | attempts stop right after the first network that connects and otherwise run to the end |
| CaptivePortal.TryInOrder | src/captive_portal.cpp:139-153 | reports a connection exactly when some network connects, after trying them in order up to the first success |
| CaptivePortal.TryConnectSaved | src/captive_portal.cpp:122-154 | with no networks it fails; otherwise it sorts the table and tries networks in priority order until one connects |
| CaptivePortal.ScanJsonShape | src/captive_portal.cpp:72-88 | the listing is a bracketed, comma-separated array whose first element is the first scan result, and "[]" when nothing is found |
| CaptivePortal.ScanJsonHoldsEvery | src/captive_portal.cpp:72-88 | every scan result's object appears in the listing at its offset, in scan order, after a comma unless it is the first, with the closing bracket right after the last one |
| CaptivePortal.ScanWiFiNetworks | src/captive_portal.cpp:72-88 | builds the listing incrementally and ends with the listing function's text |
| Diagnostics.FramesPerSecond | src/diagnostics.cpp:31 | the rate times the elapsed milliseconds is the frame count times 1000 |
| Diagnostics.OpenWindowCounts | src/diagnostics.cpp:24-37 | frames inside an open one-second window only raise the count |
| Diagnostics.WindowFps | src/diagnostics.cpp:24-37 | the frame closing a window sets the rate to the window's frames over its length and restarts the window |
| Diagnostics.FrameSentCountsTwice | src/web_server.cpp:160-165 | as written, one frame in an empty window is counted twice and a one-second window reports 2 fps instead of 1 |
| Diagnostics.AsWrittenDoublesCount | src/web_server.cpp:274-279 | as written, every frame sent adds two to the window count |
| Diagnostics.Counters.Init | src/diagnostics.cpp:12-22 | zeroes the counters and starts the rate window at now |
| Diagnostics.Counters.UpdateFrameStats | src/diagnostics.cpp:24-37 | advances the rate window by one frame |
| Diagnostics.Counters.RecordFrameSent | src/web_server.cpp:160-165 | counts the frame and its bytes modulo 2^32, and advances the rate window as written: one count by the handler, then a frame step that counts again |
| Diagnostics.Counters.RecordFrameError | src/web_server.cpp:154 | counts a frame error modulo 2^32 |
| Diagnostics.ErrorRate | src/diagnostics.cpp:91-92 | the error percentage is errors over the 32-bit wrapped attempt count, 0 when that count is 0; without wrap-around it is within 0..100, zero exactly without errors and 100 exactly when nothing was sent |
| Diagnostics.ErrorRateWraps | src/diagnostics.cpp:91-92 | once the attempt count wraps, 2^32 - 1 frames with 2 errors read as 200 percent and with 1 error as 0 |
| Diagnostics.InitOutcomeReported | src/diagnostics.cpp:116-119 | after an init attempt the report shows the library's code when init failed, ESP_FAIL when no sensor answered, and nothing after a success |
| Diagnostics.OverallVerdict | src/diagnostics.cpp:189-250 | the verdict is "error" exactly when an error check fires and "ok" exactly when no check fires; any frame error right after the window restarts makes it "error" |
| Diagnostics.CameraNotInitializedRule | src/diagnostics.cpp:212-217 | "camera not initialized" is reported exactly when the camera is neither initialised nor sleeping, and makes the verdict an error |
| Diagnostics.FailureRateRule | src/diagnostics.cpp:219-224 | the failure-rate warning appears exactly when more than half of the init attempts failed |
| Diagnostics.HealthyCamera | src/diagnostics.cpp:189-250 | a running, warmed-up camera at 5 fps or more raises only memory, signal and PSRAM warnings and only frame-error errors |
| WebServer.BoundaryWellFormed | src/web_server.cpp:13-16 | the multipart boundary is a legal RFC 2046 boundary, named in the content type and framed by CRLF and "--" in each part |
| WebServer.PartHeaderFits | src/web_server.cpp:257 | every part header fits the 64-byte part buffer, so `snprintf` never truncates |
| WebServer.StreamDelay | src/web_server.cpp:212-223 | the frame pacing is 10, 20, 30 or 50 ms: 10 exactly above -60 dBm, 50 exactly at or below -80 dBm |
| WebServer.StreamDelayMonotone | src/web_server.cpp:212-223 | a stronger signal never paces slower |
| WebServer.StreamFrom | src/web_server.cpp:227-299 | the stream consumes no more grabs than are available |
| WebServer.StepRetry | src/web_server.cpp:230-243 | a failed grab below the error limit pauses 100 ms and retries with one more error |
| WebServer.StepGiveUp | src/web_server.cpp:236-240 | the fifth consecutive failed grab ends the stream with ESP_FAIL |
| WebServer.StepFrame | src/web_server.cpp:246-297 | a frame is sent as boundary, header and data until a send fails, always returned, then the stream ends on failure or paces and resets the error count |
| WebServer.FailuresEndStream | src/web_server.cpp:230-243 | five consecutive failed grabs always end the stream with ESP_FAIL |
| WebServer.SuccessResetsErrors | src/web_server.cpp:246 | after a successful grab the earlier error count no longer matters |
| WebServer.FramesReturnedOnce | src/web_server.cpp:230-299 | every frame grabbed is returned exactly once, in order, and a stream still running used every grab |
| WebServer.StreamPartsInOrder | src/web_server.cpp:251-264 | parts go out as boundary, header, data, in that order, for every frame |
| WebServer.SendFrame | src/web_server.cpp:251-264 | sends the parts of one frame until the first failed send, with the stream's result |
| WebServer.StreamIteration | src/web_server.cpp:227-299 | one loop pass either ends the stream with the specification's result or continues it with the specification's remaining stream |
| WebServer.HandleStream | src/web_server.cpp:180-302 | refuses an unready camera; otherwise its result and its sends, returns and pauses are the stream specification's |
| WebServer.Atoi | src/web_server.cpp:322 | the parsed value is always an `int` |
| WebServer.AtoiRoundTrip | src/web_server.cpp:322 | the decimal text of any `int` parses back to it |
| WebServer.ControlKeysAreCameraKeys | src/web_server.cpp:331-364 | every key /control stores is a camera setting of the configuration |
| WebServer.HandleControl | src/web_server.cpp:310-372 | missing parameters and a missing sensor are refused unchanged; a known key is stored and applied, and the reply follows the setter's result |
| WebServer.ControlQualityValidation | src/web_server.cpp:331-364 | a quality stored by /control keeps the settings well formed, and the saved document validates exactly when it is in 0..63 |
| WebServer.AtoiOutOfRangeQuality | src/web_server.cpp:322 | /control stores the text "64" as quality 64, and the document then saved fails validation |
| WebServer.TerminatorOverrunsAsWritten | src/web_server.cpp:432-442 | as written, every body of 512 bytes or more is received into all 512 bytes and the terminator lands past the buffer; shorter bodies leave room |
| WebServer.RecvSize | src/web_server.cpp:432-442 | the corrected receive size leaves room for the terminator and takes the whole body when it fits |
| WebServer.AddressOrZero | src/web_server.cpp:503-511 | the address stored is always four bytes |
| WebServer.NewNetwork | src/web_server.cpp:496-512 | the saved entry keeps SSID and password within 31 and 63 characters (the buffers' limits, counted in characters: see "## Left out"), the given priority and the static-IP flag |
| WebServer.HandleWiFiConnect | src/web_server.cpp:430-530 | each failure has its own reply and saves nothing; the attempt is DHCP or static as requested; on connection the network is appended when the table has room |
| WebServer.HandleCapture | src/web_server.cpp:145-178 | refuses an unready camera; a failed capture counts an error; a frame is counted as written (twice in the rate window), sent and released |

## Left out

- OTA updates, `main.cpp` start-up and the HTML pages are not part of this model.
- The I2S, DMA and XCLK peripheral setup (`src/camera_i2s_driver.cpp:352-464`) is hardware configuration; its results are inputs.
- Delays, the mutex wait time and the FreeRTOS task scheduling are not modelled. A timed-out mutex is an input.
- The `esp_camera` library used by `src/camera.cpp` is foreign code. Its init result, sensor presence, frame grabs and setter results are inputs.
- Floating-point statistics are modelled with real numbers: frame rate, error percentage and the resolution thresholds. NaN and infinity enter only as "not a usable rate".
- Log messages, JSON response texts and the diagnostics JSON document are not modelled beyond the reply kinds.
- The `subnet`, `dns1` and `dns2` fields written at `src/config.cpp:137-162` and `234-241` do not exist in `WiFiNetwork` of `include/config.h:44-51`, so they are left out.
- `g_config.motion` is not a field of `SystemConfig` in `include/config.h:82-92`. The motion-enabled flag and the recording duration are inputs of `MotionMonitoring.Task.Step`.
- ArduinoJson serialisation and deserialisation are not modelled. A document is a JSON value, and a parse failure is an input.
- Config.Validate: a JSON value has no floating-point case, so a float quality, and a quality string in fraction or exponent form, which ArduinoJson would parse as a float and truncate, is read as 0 here.
- Config.Truncate: strings are sequences of characters, so the length limits of `strncpy` (31 and 63 in `src/config.cpp:114-115` and `src/web_server.cpp:497-498`) and the 32-byte buffer behind `WebServer.QueryValue` are counted in characters. They are exact only for one-byte text. Multi-byte UTF-8 text is cut later than the source cuts it, and never inside a character. The same holds for `WebServer.NewNetwork` and `WebServer.HandleWiFiConnect`.
- Config.Store.ParseNetworks: an address element that is a float, or a string in fraction or exponent form, reads as 0 here. ArduinoJson would convert it as a float (see Config.Validate).
- WebServer.HandleStream: does not model the `g_diag` counters, the per-stream frame count or the frame-time log. The frame counting is modelled in `HandleCapture` and `Diagnostics`.
- WebServer.HandleControl: the query string is taken as already split into parameters. The 100-byte query buffer and its overflow are not modelled.
- WebServer.AddressOrZero: a failed address parse stores 0.0.0.0. The partial state `IPAddress::fromString` leaves behind is not modelled.
- WebServer.HandleWiFiConnect: only reports through `saved` that the configuration is to be saved. The save itself is `Config.Store.Save`.
- An SSID or password that is not a JSON string reads as NULL, so its network entry is skipped, as the source's NULL check does. Nothing else about `strncpy` from such a value is modelled.
- WebServer.HandleWiFiConnect: modelled with the corrected receive size `RecvSize` (at most 511 bytes). A receive of all 512 bytes, which the source allows and which overruns the buffer (see Findings), is not an input of this method.
- Storage.SdCard.WriteFrameToVideo: a video file deleted while it is open is taken to restart empty. What the SD library does with such a handle is not modelled.
- Diagnostics.StackHighWaterMark: `getTaskStackHighWaterMark` only forwards to FreeRTOS. The model keeps its NULL-task case and proves nothing further about it.
- Config.ParseSystem: a present `admin_password_hash` or `ota_password` that is not a string makes `src/config.cpp:200-206` copy from NULL, which has no defined result. The model keeps the earlier value instead.
- Frame-size numbers: `include/config.h` includes `esp_camera.h`, so `src/config.cpp` and `src/camera.cpp` use esp_camera's `framesize_t`, not the enum of `include/camera_i2s.h`. The model uses the `camera_i2s.h` values throughout (QVGA 0, CIF 1, HVGA 2, VGA 3, SVGA 4, UXGA 5). Both enums list these six sizes in the same order, so the adjuster's comparisons agree. The number stored in the configuration document differs, and esp_camera's other sizes are not modelled.
- The power-down and reset pin sequence of `camera_i2s_init` (`src/camera_i2s_driver.cpp:484-500`) is GPIO output with delays and is not modelled.
- CameraPolicy.Camera.Init: the timestamps and the free-heap numbers recorded in the diagnostics are not modelled.

## Findings

| source | as written | input that shows it | evidently intended | confidence | as-written member | corrected member |
|---|---|---|---|---|---|---|
| src/camera_i2s_driver.cpp:590-598 | when the frame mutex cannot be created, `camera_i2s_init` returns ESP_ERR_NO_MEM without freeing the JPEG buffers it just allocated | n = 2 buffers allocated, mutex creation fails | free every buffer on that error path, as the other failure paths do | high, not executed | CameraI2s.MutexFailureLeaksAsWritten | CameraI2s.InitHoldsOnlyOnSuccess |
| src/web_server.cpp:160-165 | `frame_count` is incremented by the handler and again by `updateFrameStats()`, so each frame counts twice in the rate window | one frame sent 1000 ms after the window opened gives 2 fps | count each frame once, in `updateFrameStats()`, so the window reports frames over its length | high, not executed | Diagnostics.FrameSentCountsTwice | Diagnostics.WindowFps |
| src/web_server.cpp:432-442 | the receive length is `min(content_len, 512)` into a 512-byte buffer, and `content[ret] = '\0'` then writes one byte past it | any Content-Length of 512 or more with the whole buffer received, such as 600 | receive at most 511 bytes so the terminator fits | high, not executed | WebServer.TerminatorOverrunsAsWritten | WebServer.RecvSize |
