/** The `MicLib` capture session: the selected input device, the optional
    live stream, and the operations that list, select and query devices and
    start and stop capture. The backend is consulted through a `Host` value
    given to each call that needs it. */
module Session {
  import opened Base
  import opened Backend

  /** `'|' as u8`, written after every device name in a listing. */
  const DELIMITER: byte := 124

  /** The names of the devices whose name lookup succeeds, in enumeration order. */
  function Names(devs: seq<DeviceRecord>): seq<seq<byte>>
  {
    if devs == [] then []
    else match devs[0].name
      case None => Names(devs[1..])
      case Some(nm) => [nm] + Names(devs[1..])
  }

  /** Each name followed by the delimiter, concatenated. */
  function Join(names: seq<seq<byte>>): seq<byte>
  {
    if names == [] then [] else names[0] + [DELIMITER] + Join(names[1..])
  }

  /** Empty, or its last byte is the delimiter. */
  predicate EndsWithDelimiter(s: seq<byte>)
  {
    s == [] || s[|s| - 1] == DELIMITER
  }

  /** The bytes a device listing writes into `room` free cells: each named
      device's name and a delimiter, while name and delimiter still fit;
      devices without a name are passed over, and the listing ends at the
      first name that does not fit. */
  function Pack(devs: seq<DeviceRecord>, room: nat): (r: seq<byte>)
    ensures |r| <= room
  {
    if devs == [] then []
    else match devs[0].name
      case None => Pack(devs[1..], room)
      case Some(nm) =>
        if |nm| < room then nm + [DELIMITER] + Pack(devs[1..], room - |nm| - 1)
        else []
  }

  /** A non-empty listing ends with the delimiter. */
  lemma {:induction false} PackEndsWithDelimiter(devs: seq<DeviceRecord>, room: nat)
    ensures EndsWithDelimiter(Pack(devs, room))
  {
    if devs != [] && devs[0].name.Some? && |devs[0].name.value| < room {
      var nm := devs[0].name.value;
      var tail := Pack(devs[1..], room - |nm| - 1);
      PackEndsWithDelimiter(devs[1..], room - |nm| - 1);
      assert Pack(devs, room) == nm + [DELIMITER] + tail;
    } else if devs != [] && devs[0].name.None? {
      PackEndsWithDelimiter(devs[1..], room);
    }
  }

  lemma JoinCons(nm: seq<byte>, names: seq<seq<byte>>, k: nat)
    requires k <= |names|
    ensures Join(([nm] + names)[..k + 1]) == nm + [DELIMITER] + Join(names[..k])
  {
    assert ([nm] + names)[..k + 1] == [nm] + names[..k];
    assert ([nm] + names[..k])[1..] == names[..k];
  }

  /** `k` names are the most of `names`, taken from the front, whose
      delimited encoding fits in `room` cells. */
  ghost predicate LongestFittingPrefix(names: seq<seq<byte>>, room: nat, k: nat)
  {
    k <= |names|
    && |Join(names[..k])| <= room
    && (k < |names| ==> |Join(names[..k + 1])| > room)
  }

  /** A listing is the delimited encoding of the longest prefix of the
      device names that fits in `room` cells: nameless devices are skipped,
      and a name that does not fit ends the listing even if later ones would. */
  lemma {:induction false} PackIsLongestFittingPrefix(devs: seq<DeviceRecord>, room: nat)
    ensures exists k: nat :: LongestFittingPrefix(Names(devs), room, k) && Pack(devs, room) == Join(Names(devs)[..k])
  {
    var names := Names(devs);
    if devs == [] {
      assert names[..0] == [];
      assert LongestFittingPrefix(names, room, 0) && Pack(devs, room) == Join(names[..0]);
    } else {
      var rest := devs[1..];
      match devs[0].name
      case None =>
        assert names == Names(rest);
        PackIsLongestFittingPrefix(rest, room);
        var k: nat :| LongestFittingPrefix(Names(rest), room, k) && Pack(rest, room) == Join(Names(rest)[..k]);
        assert LongestFittingPrefix(names, room, k) && Pack(devs, room) == Join(names[..k]);
      case Some(nm) =>
        assert names == [nm] + Names(rest);
        if |nm| < room {
          var room' := room - |nm| - 1;
          PackIsLongestFittingPrefix(rest, room');
          var k: nat :| LongestFittingPrefix(Names(rest), room', k) && Pack(rest, room') == Join(Names(rest)[..k]);
          JoinCons(nm, Names(rest), k);
          if k < |Names(rest)| {
            JoinCons(nm, Names(rest), k + 1);
          }
          assert LongestFittingPrefix(names, room, k + 1) && Pack(devs, room) == Join(names[..k + 1]);
        } else {
          JoinCons(nm, Names(rest), 0);
          assert names[..0] == [];
          assert LongestFittingPrefix(names, room, 0) && Pack(devs, room) == Join(names[..0]);
        }
    }
  }

  /** Adding one name at the end adds that name and a delimiter. */
  lemma {:induction false} JoinSnoc(names: seq<seq<byte>>, nm: seq<byte>)
    ensures Join(names + [nm]) == Join(names) + nm + [DELIMITER]
  {
    if names == [] {
      assert [] + [nm] == [nm];
      assert [nm][1..] == [];
    } else {
      assert (names + [nm])[0] == names[0];
      assert (names + [nm])[1..] == names[1..] + [nm];
      JoinSnoc(names[1..], nm);
    }
  }

  /** The encodings of longer prefixes are strictly longer. */
  lemma {:induction false} JoinPrefixGrows(names: seq<seq<byte>>, i: nat, j: nat)
    requires i < j <= |names|
    ensures |Join(names[..i])| < |Join(names[..j])|
  {
    assert names[..j] == names[..j - 1] + [names[j - 1]];
    JoinSnoc(names[..j - 1], names[j - 1]);
    if i < j - 1 {
      JoinPrefixGrows(names, i, j - 1);
    }
  }

  /** There is only one longest fitting prefix, so the listing's prefix
      count is determined by the names and the room. */
  lemma LongestFittingPrefixUnique(names: seq<seq<byte>>, room: nat, k1: nat, k2: nat)
    requires LongestFittingPrefix(names, room, k1) && LongestFittingPrefix(names, room, k2)
    ensures k1 == k2
  {
    if k1 < k2 {
      if k1 + 1 < k2 {
        JoinPrefixGrows(names, k1 + 1, k2);
      }
    } else if k2 < k1 {
      if k2 + 1 < k1 {
        JoinPrefixGrows(names, k2 + 1, k1);
      }
    }
  }

  /** One step of `Pack` at position `i` of the device list. */
  lemma PackUnfold(devs: seq<DeviceRecord>, i: nat, room: nat)
    requires i < |devs|
    ensures devs[i].name.None? ==> Pack(devs[i..], room) == Pack(devs[i + 1..], room)
    ensures devs[i].name.Some? && |devs[i].name.value| < room ==>
      Pack(devs[i..], room) == devs[i].name.value + [DELIMITER] + Pack(devs[i + 1..], room - |devs[i].name.value| - 1)
    ensures devs[i].name.Some? && |devs[i].name.value| >= room ==> Pack(devs[i..], room) == []
  {
  }

  /** The position of the first device whose name is exactly `name`. */
  function FirstMatch(devs: seq<DeviceRecord>, name: seq<byte>): (r: Option<nat>)
    ensures r.Some? ==> r.value < |devs| && devs[r.value].name == Some(name)
    ensures forall j :: 0 <= j < |devs| && (r.None? || j < r.value) ==> devs[j].name != Some(name)
  {
    if devs == [] then None
    else if devs[0].name == Some(name) then Some(0)
    else match FirstMatch(devs[1..], name)
      case None => None
      case Some(k) => Some(k + 1)
  }

  /** A live capture stream, built on `device`. The stream's config is the
      device's default input config turned into a `StreamConfig`, which
      carries no sample format; the stream delivers `f32` samples. */
  datatype Stream = Stream(device: DeviceRecord)

  class MicLib {
    var selected: DeviceRecord
    var stream: Option<Stream>
    /** How many times the backend was asked to build a stream. */
    ghost var buildCalls: nat

    /** A live stream always belongs to the selected device: selection is
        refused while one is live. */
    ghost predicate Valid()
      reads this
    {
      stream.Some? ==> stream.value.device == selected
    }

    constructor (device: DeviceRecord)
      ensures Valid()
      ensures selected == device && stream.None? && buildCalls == 0
    {
      selected := device;
      stream := None;
      buildCalls := 0;
    }

    /** Lists the device names into `buf`: -1 when enumeration fails, else
        the number of cells written, which hold exactly `Pack`; no cell at or
        past that count changes. */
    method GetDevices(host: Host, buf: array<byte>) returns (n: int)
      modifies buf
      ensures host.enumerationFails ==> n == -1 && buf[..] == old(buf[..])
      ensures !host.enumerationFails ==>
        0 <= n <= buf.Length
        && buf[..n] == Pack(host.devices, buf.Length)
        && buf[n..] == old(buf[n..])
    {
      if host.enumerationFails {
        return -1;
      }
      var filled := WriteListing(buf, host.devices);
      n := filled;
      assert buf[n..] == old(buf[n..]);
    }

    /** The loop of `GetDevices`: writes the listing of `devs` at the front
        of `buf` and returns its length, leaving the other cells alone. */
    static method WriteListing(buf: array<byte>, devs: seq<DeviceRecord>) returns (filled: nat)
      modifies buf
      ensures filled <= buf.Length && buf[..filled] == Pack(devs, buf.Length)
      ensures forall k :: filled <= k < buf.Length ==> buf[k] == old(buf[k])
    {
      filled := 0;
      var i := 0;
      while i < |devs|
        invariant 0 <= i <= |devs|
        invariant 0 <= filled <= buf.Length
        invariant buf[..filled] + Pack(devs[i..], buf.Length - filled) == Pack(devs, buf.Length)
        invariant forall k :: filled <= k < buf.Length ==> buf[k] == old(buf[k])
      {
        PackUnfold(devs, i, buf.Length - filled);
        if devs[i].name.Some? {
          var nm := devs[i].name.value;
          if filled + |nm| < buf.Length {
            filled := AppendName(buf, filled, nm);
          } else {
            break;
          }
        }
        i := i + 1;
      }
      assert i == |devs| ==> devs[i..] == [];
    }

    /** Writes `nm` and a delimiter at `filled`, returning the new fill. */
    static method AppendName(buf: array<byte>, filled: nat, nm: seq<byte>) returns (filled': nat)
      requires filled + |nm| < buf.Length
      modifies buf
      ensures filled' == filled + |nm| + 1 <= buf.Length
      ensures buf[..filled'] == old(buf[..filled]) + nm + [DELIMITER]
      ensures forall k :: filled' <= k < buf.Length ==> buf[k] == old(buf[k])
    {
      CopyFromSlice(buf, filled, nm);
      filled' := filled + |nm| + 1;
      buf[filled' - 1] := DELIMITER;
      assert buf[..filled'] == buf[..filled' - 1] + [DELIMITER];
    }

    /** Selects the first enumerated device named exactly `name`. Refused,
        leaving the selection as it was, while a stream is live, when
        enumeration fails, or when no device has that name. */
    method SelectInputDevice(host: Host, name: seq<byte>) returns (ok: bool)
      requires Valid()
      modifies this`selected
      ensures Valid()
      ensures ok <==> old(stream).None? && !host.enumerationFails && FirstMatch(host.devices, name).Some?
      ensures ok ==> selected == host.devices[FirstMatch(host.devices, name).value]
      ensures !ok ==> selected == old(selected)
      ensures stream == old(stream)
    {
      if stream.None? {
        if host.enumerationFails {
          return false;
        }
        var devs := host.devices;
        for i := 0 to |devs|
          invariant forall j :: 0 <= j < i ==> devs[j].name != Some(name)
        {
          if devs[i].name == Some(name) {
            selected := devs[i];
            return true;
          }
        }
      }
      return false;
    }

    /** The code of the selected device's default sample format (0..9), or
        -1 when that config is unavailable or its format is not one of the
        ten known ones. */
    function GetSampleFormat(): (r: int)
      reads this
      ensures -1 <= r <= 9
      ensures r == -1 <==> selected.config.None? || selected.config.value.Unlisted?
      ensures r != -1 ==> FormatOfCode(r) == selected.config
    {
      match selected.config
      case None => -1
      case Some(f) => FormatCode(f)
    }

    /** Starts capture. With a stream already live it succeeds and builds
        nothing. Otherwise it fails, with no stream, when the selected device
        has no default config or the backend cannot build the stream, and
        on success the new stream is live on the selected device. */
    method StartListening(host: Host) returns (ok: bool)
      requires Valid()
      modifies this`stream, this`buildCalls
      ensures Valid()
      ensures old(stream).Some? ==> ok && stream == old(stream) && buildCalls == old(buildCalls)
      ensures old(stream).None? ==>
        (ok <==> selected.config.Some? && host.buildSucceeds)
        && (ok ==> stream == Some(Stream(selected)))
        && (!ok ==> stream.None?)
        && buildCalls == old(buildCalls) + (if selected.config.Some? then 1 else 0)
      ensures ok <==> stream.Some?
    {
      if stream.None? {
        match selected.config {
          case None =>
            return false;
          case Some(_) =>
            buildCalls := buildCalls + 1;
            if !host.buildSucceeds {
              return false;
            }
            stream := Some(Stream(selected));
        }
      }
      return true;
    }

    /** Drops the live stream, if any; afterwards no stream is live. */
    method StopListening()
      requires Valid()
      modifies this`stream
      ensures Valid()
      ensures stream.None?
    {
      if stream.Some? {
        stream := None;
      }
    }
  }

  /** `MicLib::new`: a session on the backend's default input device, or
      None when the backend has no default input device. */
  method New(host: Host) returns (r: Option<MicLib>)
    ensures r.None? <==> host.defaultInput.None?
    ensures r.Some? ==>
      fresh(r.value) && r.value.Valid()
      && r.value.selected == host.defaultInput.value && r.value.stream.None?
  {
    match host.defaultInput {
      case None =>
        return None;
      case Some(device) =>
        var lib := new MicLib(device);
        return Some(lib);
    }
  }

  /** Two starts in a row: the second succeeds whenever the first did and
      asks the backend for no further stream. */
  method StartTwice(lib: MicLib, host: Host) returns (first: bool, second: bool)
    requires lib.Valid()
    modifies lib
    ensures lib.Valid()
    ensures first ==> second && lib.buildCalls <= old(lib.buildCalls) + 1
    ensures second <==> lib.stream.Some?
  {
    first := lib.StartListening(host);
    second := lib.StartListening(host);
  }

  /** Two stops in a row: the second finds no stream and changes nothing. */
  method StopTwice(lib: MicLib)
    requires lib.Valid()
    modifies lib
    ensures lib.Valid()
    ensures lib.stream.None? && lib.selected == old(lib.selected)
    ensures lib.buildCalls == old(lib.buildCalls)
  {
    lib.StopListening();
    ghost var afterFirst := lib.stream;
    lib.StopListening();
    assert lib.stream == afterFirst;
  }
}
