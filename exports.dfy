/** The C-callable entry points of the library. Each one takes the session
    and caller buffers (modelled as arrays of the declared length) and
    reports its outcome as a signed status code. */
module Exports {
  import opened Base
  import opened Backend
  import opened Session

  /** How a call ends: with a value, or in a Rust panic. */
  datatype Call<T> = Returns(value: T) | Panics

  /** The six bytes of `"Hello "`. */
  const GREETING: seq<byte> := [72, 101, 108, 108, 111, 32]

  /** `get_devices`: the session's device listing. */
  method GetDevices(lib: MicLib, host: Host, buf: array<byte>) returns (n: int)
    modifies buf
    ensures host.enumerationFails ==> n == -1 && buf[..] == old(buf[..])
    ensures !host.enumerationFails ==>
      0 <= n <= buf.Length
      && buf[..n] == Pack(host.devices, buf.Length)
      && buf[n..] == old(buf[n..])
  {
    n := lib.GetDevices(host, buf);
  }

  /** `set_device`: -2 when the name bytes are not valid UTF-8 (the device
      list is then not consulted), 0 when the selection succeeds and -1 when
      it is refused. `isUtf8` is the check `std::str::from_utf8` performs. */
  method SetDevice(lib: MicLib, host: Host, name: seq<byte>, isUtf8: seq<byte> -> bool) returns (r: int)
    requires lib.Valid()
    modifies lib
    ensures lib.Valid()
    ensures r == -2 || r == -1 || r == 0
    ensures r == -2 <==> !isUtf8(name)
    ensures r == 0 <==>
      isUtf8(name) && old(lib.stream).None? && !host.enumerationFails
      && FirstMatch(host.devices, name).Some?
    ensures r == 0 ==> lib.selected == host.devices[FirstMatch(host.devices, name).value]
    ensures r != 0 ==> lib.selected == old(lib.selected)
    ensures lib.stream == old(lib.stream) && lib.buildCalls == old(lib.buildCalls)
  {
    if isUtf8(name) {
      var ok := lib.SelectInputDevice(host, name);
      if ok {
        return 0;
      } else {
        return -1;
      }
    } else {
      return -2;
    }
  }

  /** `get_sample_format`: the session's sample-format code. */
  function GetSampleFormat(lib: MicLib): (r: int)
    reads lib
    ensures -1 <= r <= 9
    ensures r == -1 <==> lib.selected.config.None? || lib.selected.config.value.Unlisted?
    ensures r != -1 ==> FormatOfCode(r) == lib.selected.config
  {
    lib.GetSampleFormat()
  }

  /** `instantiate_mic_lib`: a new session, or a panic when the backend has
      no default input device. */
  method InstantiateMicLib(host: Host) returns (r: Call<MicLib>)
    ensures r.Panics? <==> host.defaultInput.None?
    ensures r.Returns? ==>
      fresh(r.value) && r.value.Valid()
      && r.value.selected == host.defaultInput.value && r.value.stream.None?
  {
    var lib := New(host);
    match lib {
      case None => return Panics;
      case Some(l) => return Returns(l);
    }
  }

  /** `free_mic_lib`: stops listening before the session is released. */
  method FreeMicLib(lib: MicLib)
    requires lib.Valid()
    modifies lib
    ensures lib.Valid()
    ensures lib.stream.None? && lib.selected == old(lib.selected)
    ensures lib.buildCalls == old(lib.buildCalls)
  {
    lib.StopListening();
  }

  /** `hello`: writes "Hello " and then the input into the 64-byte output
      and returns the length written. When the input does not fit after the
      greeting the call panics, after the greeting has been written. */
  method Hello(input: seq<byte>, out: array<byte>) returns (r: Call<int>)
    requires out.Length == 64
    modifies out
    ensures |GREETING| + |input| <= 64 ==>
      r == Returns(|GREETING| + |input|)
      && out[..|GREETING| + |input|] == GREETING + input
      && out[|GREETING| + |input|..] == old(out[|GREETING| + |input|..])
    ensures |GREETING| + |input| > 64 ==>
      r.Panics? && out[..|GREETING|] == GREETING && out[|GREETING|..] == old(out[|GREETING|..])
  {
    CopyFromSlice(out, 0, GREETING);
    if |GREETING| + |input| > out.Length {
      return Panics;
    }
    CopyFromSlice(out, |GREETING|, input);
    return Returns(|GREETING| + |input|);
  }

  /** `selected_device`: copies the selected device's name into `out`.
      -2 when the name cannot be read, -1 (writing nothing) when it is longer
      than `out`, else the name's length, with exactly the name in the first
      cells and nothing past it changed. */
  method SelectedDevice(lib: MicLib, out: array<byte>) returns (r: int)
    modifies out
    ensures lib.selected.name.None? ==> r == -2 && out[..] == old(out[..])
    ensures lib.selected.name.Some? && |lib.selected.name.value| > out.Length ==>
      r == -1 && out[..] == old(out[..])
    ensures lib.selected.name.Some? && |lib.selected.name.value| <= out.Length ==>
      r == |lib.selected.name.value|
      && out[..r] == lib.selected.name.value
      && out[r..] == old(out[r..])
  {
    match lib.selected.name {
      case None =>
        return -2;
      case Some(nm) =>
        if |nm| <= out.Length {
          CopyFromSlice(out, 0, nm);
          return |nm|;
        } else {
          return -1;
        }
    }
  }

  /** `start_listening`: 0 when the session is listening afterwards, -1
      when starting failed. */
  method StartListening(lib: MicLib, host: Host) returns (r: int)
    requires lib.Valid()
    modifies lib
    ensures lib.Valid()
    ensures r == 0 || r == -1
    ensures r == 0 <==> lib.stream.Some?
    ensures r == 0 <==>
      old(lib.stream).Some? || (lib.selected.config.Some? && host.buildSucceeds)
    ensures old(lib.stream).Some? ==> lib.stream == old(lib.stream) && lib.buildCalls == old(lib.buildCalls)
    ensures lib.selected == old(lib.selected)
  {
    var ok := lib.StartListening(host);
    if ok {
      r := 0;
    } else {
      r := -1;
    }
  }

  /** `stop_listening`: afterwards no stream is live. */
  method StopListening(lib: MicLib)
    requires lib.Valid()
    modifies lib
    ensures lib.Valid()
    ensures lib.stream.None? && lib.selected == old(lib.selected)
    ensures lib.buildCalls == old(lib.buildCalls)
  {
    lib.StopListening();
  }
}
