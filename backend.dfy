/** The audio backend (the `cpal` library) reduced to the answers the
    session reads from it. A `Host` value is what the backend reports at
    the moment of one call: whether input-device enumeration fails, the
    devices it enumerates (in order), whether building an input stream
    succeeds, and the default input device used when a session is created. */
module Backend {
  import opened Base

  /** cpal's `SampleFormat`; the enum is non-exhaustive, so `Unlisted`
      stands for any format a later backend version may add. */
  datatype SampleFormat = I8 | I16 | I32 | I64 | U8 | U16 | U32 | U64 | F32 | F64 | Unlisted

  /** One enumerated device: `name()` may fail (None), and so may
      `default_input_config()` (None); otherwise the config's sample format. */
  datatype DeviceRecord = DeviceRecord(name: Option<seq<byte>>, config: Option<SampleFormat>)

  datatype Host = Host(
    enumerationFails: bool,
    devices: seq<DeviceRecord>,
    buildSucceeds: bool,
    defaultInput: Option<DeviceRecord>)

  /** The status code the session reports for a sample format:
      the ten known formats get the distinct codes 0..9, anything else -1. */
  function FormatCode(f: SampleFormat): (r: int)
    ensures -1 <= r <= 9
    ensures r == -1 <==> f.Unlisted?
    ensures r != -1 ==> FormatOfCode(r) == Some(f)
  {
    match f
    case I8 => 0
    case I16 => 1
    case I32 => 2
    case I64 => 3
    case U8 => 4
    case U16 => 5
    case U32 => 6
    case U64 => 7
    case F32 => 8
    case F64 => 9
    case Unlisted => -1
  }

  /** How a caller decodes a sample-format code; the inverse of `FormatCode`. */
  function FormatOfCode(c: int): (r: Option<SampleFormat>)
    ensures r.Some? <==> 0 <= c <= 9
    ensures r.Some? ==> !r.value.Unlisted?
  {
    if c == 0 then Some(I8)
    else if c == 1 then Some(I16)
    else if c == 2 then Some(I32)
    else if c == 3 then Some(I64)
    else if c == 4 then Some(U8)
    else if c == 5 then Some(U16)
    else if c == 6 then Some(U32)
    else if c == 7 then Some(U64)
    else if c == 8 then Some(F32)
    else if c == 9 then Some(F64)
    else None
  }
}
