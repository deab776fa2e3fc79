# Raspberry Pi camera station: a verified model of its core logic

The station is a Raspberry Pi with a camera, a DHT11 temperature and humidity
sensor and a 16x2 HD44780 character display behind a PCF8574 I2C backpack.
Three programs drive it:

- `app_3.py` and `app_monitor.py` are two versions of a monitoring web
  server. Each takes timelapse stills into a folder and serves a live
  preview as a `multipart/x-mixed-replace` stream. Each keeps the last 100
  sensor readings and drives the display.
- `app_2.py` is a stand-alone timelapse recorder. It takes one timestamped
  still per interval until Ctrl+C, then encodes the stills into a video.

This project models the deterministic core of the three programs in Dafny
and proves what they promise:

- **Display drivers.**
  - The bytes each display driver puts on the I2C bus.
  - What an HD44780 in 4-bit mode latches from those bytes, taken as the
    reference.
- **Sensor log.**
  - The sensor reading with its `(0, 0)` fallback.
  - The bounded `deque` of measurements.
- **Photo names.**
  - The numbered `img_NNN.jpg` names and the counter behind them.
  - The `.jpg` count of a folder.
  - The timestamped names of the recorder.
- **Camera use.**
  - The camera calls inside each `with camera_lock:` block, each block being
    one atomic step.
  - Which configuration is in effect at each capture.
- **Preview chunks.** The chunk framing of the preview stream.
- **Recorder lifecycle.** The `TimelapseCamera` lifecycle: its start, photo
  loop, signal handler, and its `finally` block, which closes the camera and
  then makes the video.

**How inputs are modelled.**

- Hardware and operating-system calls become appends to a trace field: bus
  bytes, camera events, folder names, actions.
- Their outcomes, the clock and the sensor readings are parameters.
- An infinite `while True` loop runs for as many iterations as its schedule
  parameter has.
- A call that raises is named by its position in its block (`failAt`). It
  leaves no trace, and the rest of the block is skipped.

**How the files are laid out.**

| file | content |
|---|---|
| `text.dfy` | digits, padding and suffixes |
| `timestamps.dfy` | the two `strftime` layouts |
| `order.dfy` | Python string order and `sorted` |
| `hd44780.dfy` | the controller as the reference |
| `lcd_nibble.dfy` | the `LCD` class of `app_3.py` |
| `lcd_direct.dfy` | `lcd_write` and its callers in `app_monitor.py` |
| `measurements.dfy` | the sensor and the deque |
| `photos.dfy` | file names and counting |
| `camera.dfy` | camera states and traces |
| `multipart.dfy` | preview chunks |
| `app3_threads.dfy` | the camera threads of `app_3.py` |
| `monitor_threads.dfy` | the camera threads of `app_monitor.py` |
| `timelapse.dfy` | `app_2.py` |

## Model

| member | source | states |
|---|---|---|
| LcdFourBit.Lcd.WriteByte | app_3.py:44-47 | the bus gets exactly the one byte, with bit 3 (backlight) set while `backlight` is on |
| LcdFourBit.Lcd.Strobe | app_3.py:49-53 | the bus gets exactly the two strobe bytes for `data` |
| LcdFourBit.StrobePulse | app_3.py:49-53 | a strobe is two bytes: enable set in the first and cleared in the second, otherwise equal, the second being `data` with enable cleared; both carry the backlight bit while it is on |
| LcdFourBit.Lcd.WriteCmd | app_3.py:55-57 | a command puts exactly its four nibble-strobe bytes on the bus |
| LcdFourBit.Lcd.WriteChar | app_3.py:59-61 | a character puts exactly the four bytes of the low 8 bits of its code on the bus |
| LcdFourBit.NibbleRoundTrip | app_3.py:55-61 | the high nibbles of the first and third bytes recombine into the byte written |
| LcdFourBit.CommandSelect | app_3.py:55-57 | RS (bit 0) and R/W (bit 1) are clear in all four bytes of a command |
| LcdFourBit.CharSelect | app_3.py:59-61 | RS is set and R/W clear in all four bytes of a character |
| LcdFourBit.ByteWriteReceived | app_3.py:49-61 | the controller latches exactly two nibbles from one command or character write and pairs them into that one byte, with RS telling character from command |
| LcdFourBit.NibblesRecombine | app_3.py:55-61 | the two nibbles sent for a value make that value again, and RS is set iff the mode is character |
| LcdFourBit.WriteAllReceived | app_3.py:55-61 | any sequence of writes arrives as one transfer per value, in order, and leaves enable low |
| LcdFourBit.Lcd.Init | app_3.py:63-78 | `init` puts four raw bytes and then five command writes on the bus |
| LcdFourBit.RawInitSilent | app_3.py:64-72 | the four raw writes of `init` carry no enable pulse, so nothing is latched |
| LcdFourBit.InitReceived | app_3.py:63-78 | the controller receives exactly the instructions 0x28, 0x08, 0x01, 0x06, 0x0C, in order, taking the reference to start in 4-bit mode with no nibble pending; the raw 0x30/0x20 bytes carry no E pulse (RawInitSilent), so they do not bring a controller that powers up in 8-bit mode into that state |
| LcdFourBit.Lcd.Clear | app_3.py:80-82 | clearing is exactly one write of command 0x01 |
| LcdFourBit.Lcd.WriteString | app_3.py:84-91 | the bus gets the line command (0x80 for line 0, 0xC0 for line 1, none otherwise) and then one character write per character of the fitted message |
| LcdFourBit.FitShape | app_3.py:89 | the fitted message has exactly 16 characters: the message's own characters first, then spaces |
| LcdFourBit.WriteStringReceived | app_3.py:84-91 | the controller receives the line address command and then exactly 16 character transfers, the message padded with spaces or cut |
| LcdFourBit.Lcd.constructor | app_3.py:35-42 | a new display has the backlight on and has sent nothing |
| LcdDirect.Bus.WriteByte | app_monitor.py:57-64 | a write goes out exactly when the device answers; one that raises sends nothing |
| LcdDirect.Sends | app_monitor.py:55-67 | a call sends a prefix of its three bytes: those before its first `write_byte` that raises, all three when none does |
| LcdDirect.Bus.LcdWrite | app_monitor.py:55-67 | the trace grows by exactly what the call sends, and the error is caught there, so the caller goes on to its next call |
| LcdDirect.WriteShape | app_monitor.py:57-64 | the first and third bytes are equal, and the middle one is the first with enable set; all three keep the data's R/W bit (bit 1); in data mode RS and backlight are set and the other bits are the data's; in command mode enable is clear in the outer bytes |
| LcdDirect.DataModeEnable | app_monitor.py:57-59 | in data mode the outer bytes keep enable high exactly when bit 2 of the character's code is set |
| LcdDirect.CommandLatched | app_monitor.py:61-63 | a command with bit 1 (R/W) clear latches a single nibble, its high four bits with RS its bit 0; one with bit 1 set pulses E in a read cycle and latches nothing |
| LcdDirect.DataLatched | app_monitor.py:57-59 | a character with bit 2 clear latches its high nibble as data when its bit 1 is clear, and nothing when it is set |
| LcdDirect.DataEnableStuck | app_monitor.py:57-59 | a character with bit 2 set latches nothing and leaves enable high |
| LcdDirect.Bus.LcdClear | app_monitor.py:69-70 | clearing is one command call of 0x01 |
| LcdDirect.Bus.LcdInit | app_monitor.py:42-53 | each of the six commands is tried in order with its own failure point, whatever the ones before it did; the trace grows by what each sends |
| LcdDirect.CommandsLatched | app_monitor.py:55-67 | a run of command calls on a bus that answers every write latches, in order, the high nibble of each command whose R/W bit is clear, with RS its bit 0, and leaves E low |
| LcdDirect.InitOpeningReads | app_monitor.py:45-47 | 0x33, 0x32 and 0x06 have R/W set, so their enable pulses end read cycles |
| LcdDirect.InitOpeningSilent | app_monitor.py:45-47 | the first three commands latch nothing and leave E low |
| LcdDirect.InitLatched | app_monitor.py:42-53 | on a bus that answers every write the controller latches exactly three nibbles: 0 and 2 as commands, from 0x0C and 0x28, and 0 with RS set, from 0x01, whose bit 0 the command mask keeps |
| LcdDirect.Bus.LcdDisplayString | app_monitor.py:72-82 | the line's address command (0x80 for line 1, 0xC0 for line 2, none otherwise), then one data call per character with no padding or truncation, each tried with its own failure point |
| LcdDirect.Bus.WriteChars | app_monitor.py:79-80 | the character loop: one data call per character, in order, each sending what its own failure point lets through |
| LcdDirect.CharsBytesAt | app_monitor.py:79-80 | character `i` is the `i`-th three-byte data write |
| LcdDirect.HealthyBusDeliversAll | app_monitor.py:55-67 | a bus that answers every write delivers every byte of every call |
| LcdDirect.SentByAppend | app_monitor.py:55-67 | two runs of calls send what each sends on its own: a write refused in the first run does not affect the second, whose every call is tried again |
| LcdDirect.OneRefusalCostsOneCommand | app_monitor.py:42-67 | a device that does not answer the first write of `lcd_init` loses only 0x33, and the other five commands go out in full; had the error reached `lcd_init`'s own handler, nothing would have gone out |
| Measurements.DhtData | app_3.py:98-102 | the reading comes back in temperature-first order, or as `(0, 0)` when either value is missing |
| Measurements.FailedReadRecorded | app_monitor.py:132-136 | a failed read still produces a measurement, the `(0, 0)` sentinel stamped with the time |
| Measurements.MeasurementLog.Append | app_3.py:27 | the deque holds the last 100 of all values appended so far, the latest last |
| Measurements.UpdateMeasurements | app_3.py:126-134 | each poll appends exactly one measurement, stamped `%H:%M:%S`, in poll order; the deque keeps the last 100 of them |
| Measurements.PollsAt | app_monitor.py:145-153 | measurement `i` is poll `i`'s reading stamped with its clock time |
| Measurements.LastNBounded | app_monitor.py:33 | the deque never exceeds 100 entries and keeps the most recent ones in order |
| Measurements.LastNAppend | app_3.py:27 | dropping the oldest entry on each full append is the same as keeping the last 100 of everything appended |
| Timestamps.ClockTextRoundTrip | app_3.py:130 | `%H:%M:%S` takes eight characters and gives the time of day back |
| Timestamps.CompactTextRoundTrip | app_2.py:32 | `%Y%m%d_%H%M%S` takes 15 characters and gives the whole date and time back |
| Timestamps.CompactTextInjective | app_2.py:32 | different valid times give different stamps |
| Text.PadRoundTrip | app_3.py:96 | a zero-padded number reads back as the number |
| Text.PadWidth | app_3.py:96 | a number below `10^w` pads to exactly `w` digits |
| PhotoNames.PhotoCounter.GetFilename | app_3.py:93-96 | the counter grows by exactly one and the name is that of the new count |
| PhotoNames.ImgNameRoundTrip | app_3.py:96 | the number can be read back from `img_NNN.jpg` |
| PhotoNames.ParseImgNameExact | app_3.py:96 | a name that reads as number `n` is exactly `img_` + `n` padded to three digits + `.jpg` |
| PhotoNames.ImgNameInjective | app_3.py:93-96 | successive counter values give distinct names |
| PhotoNames.ImgNameIsJpg | app_3.py:96 | every numbered name is counted as a `.jpg` |
| PhotoNames.JpgNames | app_3.py:104-109 | the filter keeps exactly the listed names that end in `.jpg` |
| PhotoNames.JpgNamesAppend | app_monitor.py:138-143 | filtering a concatenated listing filters each part |
| PhotoNames.TimelapseInfo | app_3.py:104-109 | the count of `.jpg` names in the listing, as in app_monitor.py too: at most the listing's length, 0 exactly when no name ends in `.jpg`, and 0 when `os.listdir` raises |
| PhotoNames.TimelapseInfoAfterAdding | app_monitor.py:138-143 | one more listed name adds one to the count exactly when it ends in `.jpg` |
| PhotoNames.TimelapseBaseNameRoundTrip | app_2.py:32-33 | the recorder's name is `timelapse_`, the 15-character stamp, `.jpg`, and the time reads back from it |
| PhotoNames.TimelapsePathInjective | app_2.py:32-33 | photos taken in different seconds get different paths |
| StringOrder.SortCorrect | app_2.py:43 | `sorted` returns a sorted permutation of its input |
| StringOrder.SortedUnique | app_2.py:43 | only one sorted permutation exists, so the sort's result is determined |
| StringOrder.LeTotal | app_2.py:43 | any two strings are ordered one way or the other |
| StringOrder.LeTransitive | app_2.py:43 | string order is transitive |
| StringOrder.LeAntisymmetric | app_2.py:43 | two strings ordered both ways are equal |
| StringOrder.InsertSorted | app_2.py:43 | inserting into a sorted list keeps it sorted |
| CameraModel.InterleaveWellModed | app_3.py:115-120 | however blocks that configure themselves are interleaved and cut short, every capture runs in the configuration it needs |
| CameraModel.RunAppend | app_3.py:115-120 | running two traces in a row is running their concatenation |
| CameraModel.WellModedAppend | app_monitor.py:114-126 | well-modedness composes along a trace |
| CameraModel.RepeatedIsInterleave | app_3.py:165-179 | a thread that repeats one lock body is the interleaving of copies of that body, each cut where it fails |
| CameraModel.RepeatedWellModed | app_monitor.py:155-168 | a thread repeating a self-configuring body captures only in the configuration it needs |
| CameraModel.Camera.Call | app_3.py:116-119 | a call that goes through is appended to the trace; one that raises changes nothing |
| Multipart.ChunkRoundTrip | app_3.py:175-176 | stripping the fixed prefix and the final CRLF from a chunk gives the frame back |
| Multipart.ParseChunkExact | app_3.py:175-176 | a chunk that parses is exactly the chunk of the frame it parses to |
| Multipart.ChunkInjective | app_monitor.py:162-163 | different frames give different chunks |
| Multipart.ChunkLength | app_3.py:175-176 | the fixed part of a chunk is 39 bytes: 37 before the frame and 2 after it |
| Multipart.DelimiterBetween | app_3.py:175-176 | between two consecutive chunks stands the RFC 2046 delimiter CRLF `--frame` |
| App3Threads.CaptureStep | app_3.py:114-124 | one pass of the loop: the block's calls up to the one that raises; the counter grows iff `get_filename` was reached; the path is `dir/img_NNN.jpg` for the new count |
| App3Threads.CaptureTimelapse | app_3.py:111-124 | a run of passes: the trace is each block cut at its failing call; the counter grows once per block that reached `get_filename`; an `interval` pause follows a pass exactly when it did not raise |
| App3Threads.PreviewStep | app_3.py:167-179 | one pass: the block's calls, and the chunk of the frame exactly when the capture went through |
| App3Threads.GeneratePreview | app_3.py:165-179 | a run: one chunk per pass without error, in order; 0.1 s pauses after those only |
| App3Threads.StillBodySelfConfiguring | app_3.py:115-119 | stop, still config and start precede `capture_file`, so the capture runs in the still configuration from any state and at any cut |
| App3Threads.PreviewBodySelfConfiguring | app_3.py:169-172 | stop, preview config and start precede `capture_array` |
| App3Threads.CaptureRunIsInterleave | app_3.py:111-124 | the capture thread's trace is the interleaving of its own lock bodies, each cut where it fails |
| App3Threads.CaptureBodiesSelfConfiguring | app_3.py:115-119 | every lock body of the capture thread, whatever photo it names, sets up the still configuration itself |
| App3Threads.RunsWellModed | app_3.py:111-124 | each thread on its own captures only in the configuration it needs, from any state |
| App3Threads.ThreadsWellModed | app_3.py:111-179 | in any interleaving of the two threads' blocks, every capture finds its configuration applied and started |
| App3Threads.BodiesLeave | app_3.py:115-176 | a completed capture block leaves the still configuration started; a completed preview block leaves the preview one |
| App3Threads.BodiesStopFirst | app_3.py:115-172 | each `configure` in either block finds the camera stopped |
| App3Threads.YieldedFrames | app_3.py:175-176 | every yielded chunk is a frame's chunk, and the frame is recovered from it |
| App3Threads.YieldedCount | app_3.py:165-179 | the number of chunks is the number of passes whose capture went through |
| App3Threads.CaptureNamesDistinct | app_3.py:119 | different counter values give different photo paths |
| MonitorThreads.CaptureStep | app_monitor.py:113-128 | one pass: configure and start still, count up, capture, then configure and start preview, stopping at the call that raises; the count goes up iff the still start went through, even when the capture then fails |
| MonitorThreads.Seed | app_monitor.py:107-110 | the seed is 0 for a missing folder, at most the number of listed names and 0 exactly when none ends in `.jpg`; there is none when `os.listdir` raises |
| MonitorThreads.CaptureTimelapse | app_monitor.py:106-130 | the folder is created when missing; when listing it raises, the thread ends with no camera call and no pause; otherwise the counter starts at the folder's `.jpg` count and the loop runs as `CaptureLoop` states |
| MonitorThreads.CaptureLoop | app_monitor.py:112-130 | the trace is each block cut at its failing call; the counter grows once per block that got past the start; each pass is followed by an `interval` pause, failed or not |
| MonitorThreads.SeedIsPhotoCount | app_monitor.py:110 | the counter's seed is the count `get_timelapse_info` reports; where listing raises, `get_timelapse_info` reports 0 and the thread gets no seed |
| MonitorThreads.SeedCanCollide | app_monitor.py:110-122 | seeded from the count, the next name can be one already in the folder: a folder holding only `img_002.jpg` gets `img_002.jpg` again |
| MonitorThreads.SeedFreshOverOwnPhotos | app_monitor.py:110-122 | when the folder holds exactly the photos `img_001` ... `img_k`, every later number names a new file |
| MonitorThreads.NumberedAllJpg | app_monitor.py:110 | every numbered name is counted |
| MonitorThreads.PreviewStep | app_monitor.py:157-168 | one pass: configure and start preview, capture, and the chunk exactly when the capture went through |
| MonitorThreads.GeneratePreview | app_monitor.py:155-168 | a run: one chunk per pass without error; a 0.1 s pause after those and 1 s after a failed pass |
| MonitorThreads.StillBodySelfConfiguring | app_monitor.py:115-122 | the still configuration is applied and started before `capture_file`, from any state and at any cut |
| MonitorThreads.PreviewBodySelfConfiguring | app_monitor.py:158-161 | the preview configuration is applied and started before `capture_array` |
| MonitorThreads.CaptureRunIsInterleave | app_monitor.py:106-130 | the capture thread's trace is the interleaving of its own lock bodies, each cut where it fails |
| MonitorThreads.CaptureBodiesSelfConfiguring | app_monitor.py:115-122 | every lock body of the capture thread, whatever photo it names, sets up the still configuration itself |
| MonitorThreads.RunsWellModed | app_monitor.py:106-130 | each thread on its own captures only in the configuration it needs, from any state |
| MonitorThreads.ThreadsWellModed | app_monitor.py:106-168 | in any interleaving of the two threads' blocks, every capture finds its configuration applied and started |
| MonitorThreads.BodiesLeave | app_monitor.py:114-161 | both completed blocks leave the preview configuration applied and started |
| MonitorThreads.ConfiguresWhileStreaming | app_monitor.py:114-161 | after a completed block the camera is streaming, so the next block calls `configure` on a started camera |
| Timelapse.TimelapseCamera.constructor | app_2.py:11-19 | `running` is false, no camera is held, and the folder is created exactly when it does not exist |
| Timelapse.TimelapseCamera.InitCamera | app_2.py:24-29 | open, still configuration, start, up to the call that raises; the camera is held once it was constructed |
| Timelapse.TimelapseCamera.TakePhoto | app_2.py:31-35 | the file is `output_dir/timelapse_YYYYMMDD_HHMMSS.jpg`; the folder gains that name, or keeps it when already there |
| Timelapse.Photos | app_2.py:43 | the photo list is sorted, is a permutation of the folder's `.jpg` names, and holds exactly them |
| Timelapse.VideoReportFor | app_2.py:37-66 | no photos exactly when no name ends in `.jpg`; a video named for the clock, counting every `.jpg`, exactly when there is one and the encoder succeeds |
| Timelapse.TimelapseCamera.CreateVideo | app_2.py:37-66 | the encoder runs once, on `output_dir/timelapse_*.jpg`, exactly when a `.jpg` is listed; its failure is swallowed; nothing else changes |
| Timelapse.TimelapseCamera.StopSignalHandler | app_2.py:84-86 | only `running` changes, to false |
| Timelapse.TimelapseCamera.TakePhotos | app_2.py:74-77 | one photo per pass; the loop leaves at the first check after the signal, or at the photo that raises, with `running` still true |
| Timelapse.TimelapseCamera.Start | app_2.py:68-82 | an `init_camera` failure leaves before the `try`, with no video; otherwise `finally` closes the camera exactly once, and then `create_video` runs exactly once, whether the loop was stopped or raised |
| Timelapse.RecorderWellModed | app_2.py:24-34 | every photo is taken in the still configuration on a started camera, and the close leaves the device fresh |
| Timelapse.StoredNames | app_2.py:31-35 | the folder ends up holding its old names and the photos' names, and nothing else |
| Timelapse.DistinctSecondsKeepEveryPhoto | app_2.py:31-35 | photos taken in distinct seconds into a folder without their names each leave their own file |
| Timelapse.SameSecondOverwrites | app_2.py:32-34 | two photos within one second share a name, and the second overwrites the first |
| Timelapse.PhotosMatchPattern | app_2.py:33-54 | every photo the recorder writes matches the encoder's `timelapse_*.jpg` glob |
| Timelapse.FreshFolderHoldsOnlyPhotos | app_2.py:17-19 | in a folder the recorder created, every name matches the glob and is counted |
| Timelapse.ForeignJpgCounted | app_2.py:43-61 | the reported count includes `.jpg` files that the glob does not give to the encoder |

## Left out

- Flask routes, the HTML page, the JSON and graph endpoints, `app.py` and `argparse`. They are web and command-line glue.
- `update_lcd_display` and `update_lcd`. They only format pages; `:.1f` is floating-point formatting and is not modelled.
- Threads and `camera_lock`. Each lock body is one atomic step, and any interleaving of whole bodies is covered. The generator `generate_preview` holds the lock while it is suspended at `yield`; that is not modelled.
- `time.sleep`. Pauses are recorded as numbers of milliseconds after each iteration, or not at all in `app_2.py`. No timing semantics are given.
- Temperatures and humidities are integers. The DHT11 reports whole numbers, but the driver returns Python floats.
- `smbus` and `SMBus` are modelled as a byte trace. The int passed to `write_byte` is reduced to its low 8 bits, as the driver stores it in one byte.
- Camera calls are modelled as events. Picamera2 raising on a `configure` while the camera is started is not modelled as an error. It is stated only as lemmas about `ConfiguresStopped`: `App3Threads.BodiesStopFirst` and `MonitorThreads.ConfiguresWhileStreaming`.
- `cv2.imencode` is not modelled: the encoded frame is an input.
- `os.listdir`, `os.path.exists` and `os.makedirs` are modelled on a sequence of names. A failing `os.makedirs` or `os.listdir` inside `create_video` is not modelled.
- The signal is delivered between iterations: during `init_camera`'s warm-up or during a sleep. The registration with `signal.signal` itself is not modelled.
- `ffmpeg` is modelled as one action with its input glob and output name. Its frames, codec and exit status beyond success or failure are not modelled.
- `%Y` is always four zero-padded digits. Years below 1000 are outside what the clock produces.
- A failing `picam2.close()` in `finally` is not modelled.
- A negative `interval` is not modelled: `time.sleep` would raise on it.
- The HD44780 reference starts in 4-bit mode with no nibble pending. The controller's power-on 8-bit mode, and the reset by instruction that is meant to leave it, are not modelled.
- LcdFourBit.Lcd.WriteByte: app_3.py's `LCD` class has no handler, so a bus error raises out of `strobe`, `write_cmd`, `write_char`, `init`, `clear` and `write_string` after the bytes already sent. The `Lcd` methods model a bus that answers every write.
- MonitorThreads.CaptureTimelapse: `os.makedirs` raising is not modelled. Like `os.listdir` it is outside the `try`, so it too would end the thread before its loop.
- PhotoNames.PhotoCounter.GetFilename: its contract gives the name as `ImgName` of the new count, and the number's round trip is the separate lemma `ImgNameRoundTrip`.
