# mic_lib session model

A Dafny model of the microphone-capture library in `mic_lib/src/lib.rs`.
The library is a `MicLib` session with three parts: the audio host, the
selected input device and an optional live input `Stream`. It is exposed to
a foreign host process through `extern "C"` functions that take raw buffer
pointers and return signed status codes.

The audio backend (the `cpal` crate) is replaced by a `Backend.Host` value.
Each call that consults the backend receives one. A host value says:

- whether input-device enumeration fails;
- the enumerated devices, in order, each with an optional name and an
  optional default-config sample format;
- whether building an input stream succeeds;
- the default input device used when a session is created.

The host is a parameter and not a field because enumeration answers afresh
on every call. The selected device, however, is kept as the record it had
when it was enumerated (see "## Left out"). Caller buffers are Dafny arrays
of the declared length, and bytes are the `Base.byte` newtype.

The model proves these properties:

- **Device listing.** It is exactly the delimited encoding of the longest
  prefix of device names that fits. Devices without a name are skipped.
  No cell past the returned count is written. The result is -1 exactly
  when enumeration fails.
- **Device selection.** It is refused, with the selection unchanged, while
  a stream is live, when enumeration fails, or when no name matches.
  Otherwise it picks the first exact match.
- **Sample-format codes.** The ten known formats get the codes 0..9, and
  `FormatOfCode` decodes them back. Every other case gives -1.
- **Idle/Listening state machine.** `start_listening` is idempotent: with a
  stream live it succeeds and asks the backend for nothing. `stop_listening`
  always leaves no stream. The object invariant `Valid` says that a live
  stream belongs to the selected device.
- **Status codes and copy-out routines.** The exported functions return the
  status codes the source uses. `hello` and `selected_device` copy into
  caller buffers exactly as the source does.

`lib.rs` keeps no sample queue and no error latch. Each captured block goes
straight to the foreign callback `f` (lines 130-133), and a stream error
only calls `err_fn` (lines 134-137).

## Model

| member | source | states |
|---|---|---|
| Base.CopyFromSlice | mic_lib/src/lib.rs:73 | overwrites exactly the cells from `at` on, as many as `src` has, with `src`; every other cell keeps its old value |
| Backend.FormatCode | mic_lib/src/lib.rs:102-114 | the code lies in -1..9; it is -1 exactly for a format outside the ten known ones; every other code decodes back to its format, so the ten known formats get distinct codes |
| Backend.FormatOfCode | mic_lib/src/lib.rs:103-112 | the decoding of a format code: defined exactly on 0..9 and never yields an unknown format |
| Session.Pack | mic_lib/src/lib.rs:68-80 | a listing written into `room` free cells never takes more than `room` cells (the strict `<` leaves room for the delimiter) |
| Session.PackEndsWithDelimiter | mic_lib/src/lib.rs:72-75 | a listing is empty or its last byte is the delimiter byte |
| Session.LongestFittingPrefixUnique | mic_lib/src/lib.rs:72-78 | at most one prefix count satisfies the longest-fitting condition, so the prefix a listing encodes is determined by the names and the buffer length |
| Session.PackIsLongestFittingPrefix | mic_lib/src/lib.rs:68-80 | a listing equals each name followed by the delimiter byte over the longest prefix of the readable device names that fits: nameless devices are skipped, and the first name that does not fit ends the listing even if later names would fit |
| Session.FirstMatch | mic_lib/src/lib.rs:89-96 | the result is the position of a device whose name equals the argument exactly, and no earlier device has that name; None exactly when no device has it |
| Session.MicLib.constructor | mic_lib/src/lib.rs:57-62 | a new session holds the given device and no stream |
| Session.MicLib.GetDevices | mic_lib/src/lib.rs:65-85 | -1 with the buffer untouched exactly when enumeration fails; otherwise a count `n` in `0..len` whose first `n` cells hold exactly `Pack` of the devices, with every cell from `n` on unchanged |
| Session.MicLib.WriteListing | mic_lib/src/lib.rs:66-80 | the enumeration loop writes exactly `Pack` of the devices at the front of the buffer and leaves every later cell unchanged |
| Session.MicLib.AppendName | mic_lib/src/lib.rs:72-75 | a fitting name is copied at the fill point and followed by the delimiter byte, advancing the fill by its length plus one; later cells are unchanged |
| Session.MicLib.SelectInputDevice | mic_lib/src/lib.rs:87-99 | succeeds exactly when no stream is live, enumeration succeeds and some device has exactly that name, and then selects the first such device; otherwise the selection is unchanged; the stream is never touched |
| Session.MicLib.GetSampleFormat | mic_lib/src/lib.rs:100-118 | the code lies in -1..9; -1 exactly when the selected device has no default config or an unknown format; otherwise the code decodes to that device's format |
| Session.MicLib.StartListening | mic_lib/src/lib.rs:119-144 | with a stream live it succeeds and builds nothing; otherwise it succeeds exactly when the default config is available and the build succeeds, leaving a stream on the selected device, and on failure no stream is live; success holds exactly when a stream is live afterwards |
| Session.MicLib.StopListening | mic_lib/src/lib.rs:145-149 | afterwards no stream is live |
| Session.New | mic_lib/src/lib.rs:54-63 | None exactly when the backend has no default input device; otherwise a fresh session on that device with no stream |
| Session.StartTwice | mic_lib/src/lib.rs:124-143 | two starts in a row: if the first succeeds, so does the second, and at most one stream is requested from the backend |
| Session.StopTwice | mic_lib/src/lib.rs:145-149 | two stops in a row leave no stream and the selection unchanged |
| Exports.GetDevices | mic_lib/src/lib.rs:152-155 | the export returns the session's listing, with the same contract as the method |
| Exports.SetDevice | mic_lib/src/lib.rs:157-169 | the result is in {-2, -1, 0}; -2 exactly for bytes that are not valid UTF-8, with the selection unchanged; 0 exactly when selection succeeds, with the first exact match selected; -1 otherwise, with the selection unchanged; the stream is never touched |
| Exports.GetSampleFormat | mic_lib/src/lib.rs:171-174 | the export returns a code in -1..9; -1 exactly when the selected device has no default config or an unknown format; otherwise the code decodes to that device's format |
| Exports.InstantiateMicLib | mic_lib/src/lib.rs:176-181 | panics exactly when there is no default input device; otherwise a fresh idle session on that device |
| Exports.FreeMicLib | mic_lib/src/lib.rs:183-187 | the session stops listening before it is released |
| Exports.Hello | mic_lib/src/lib.rs:189-199 | when `6 + len <= 64`: writes `"Hello "` followed by the input, returns `6 + len`, and leaves later cells unchanged; otherwise it panics after writing the greeting |
| Exports.SelectedDevice | mic_lib/src/lib.rs:201-215 | -2, writing nothing, when the selected device's name cannot be read; -1, writing nothing, when the name is longer than `len`; otherwise it returns the name's length, the first cells hold exactly the name, and nothing past it changes |
| Exports.StartListening | mic_lib/src/lib.rs:217-228 | the result is 0 or -1; it is 0 exactly when a stream is live afterwards, which is when one was already live or the config is available and the build succeeds |
| Exports.StopListening | mic_lib/src/lib.rs:230-233 | afterwards no stream is live and the selection is unchanged |

## Left out

- The `cpal` backend is not modelled: host and device enumeration, `default_input_config`, `build_input_stream` and `Stream` objects. It is replaced by the `Host` value and the device records. A built stream is recorded only by the device it was built on. Its config carries no sample format, and it delivers `f32` samples.
- The closures passed to `build_input_stream` (lines 130-137) are left out. They run on a backend-owned thread and call foreign callbacks through raw pointers, which is concurrency plus FFI; the function pointers `f` and `err_fn` are therefore not parameters of the model.
- Whether a built stream ever plays is not modelled; `play()` is never called in `lib.rs`.
- Raw-pointer validity and memory management are left out: `from_raw_parts`, `Box::into_raw` and `Box::from_raw`. `FreeMicLib` models only the `stop_listening` that precedes the drop.
- Exports.SelectedDevice: reads the selected device's name as it was when the device was enumerated. The source calls `name()` again (line 203), so a name that later becomes unreadable, say after the device is unplugged, is not captured: after a successful selection the model never returns -2.
- Session.MicLib.GetSampleFormat: reads the selected device's default config as it was when the device was enumerated. The source calls `default_input_config()` again (line 101), so a config that changes or disappears later is not captured.
- Session.MicLib.StartListening: reads the selected device's default config as it was when the device was enumerated. The source calls `default_input_config()` again (line 125), so a config that disappears later is not captured.
- UTF-8 validation by `std::str::from_utf8` is a parameter `isUtf8` of `SetDevice`, not a definition.
- Exports.SetDevice does not state that the device list goes unread on the -2 path. The model shows this only by that path's result and state not depending on the host.
- Device names are compared as byte sequences. For valid UTF-8 this is the same as the source's `String` equality.
- The `usize` to `isize` casts are not modelled, because counts never exceed the buffer length.
- `eprintln!` diagnostics are left out.
- The commented-out demo at `lib.rs` lines 6-45 is not part of this model.
- `mic_lib/src/main.rs` is not part of this model. It is a hardware demo binary with floating-point comparisons, printing and sleeping.
