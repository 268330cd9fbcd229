/** The CAN frame decoders of the position readers and the state the two reader
    threads keep: latitude, longitude, heading, track, wind direction and the
    UTC time assembled from a date frame and a time frame. Each reader thread is
    a loop over frames; here one call per frame (`Receive`) updates the fields,
    proved against a pure step function, and `Run` folds it over a sequence of
    frames until the first exception. */
module CanReader {
  import opened Outcomes
  import opened Calendar

  /** A received CAN frame: its arbitration id, its data bytes, and whether the
      interface flagged it as an error frame. */
  datatype Frame = Frame(id: int, data: seq<byte>, isErrorFrame: bool)

  /** The IEEE-754 single-precision reading of four big-endian bytes, as
      struct.unpack('>f', ...) returns it; a parameter of this model. */
  type FloatDecoder = seq<byte> -> real

  /** datetime(...).timestamp(), which depends on the local time zone; a
      parameter of this model. */
  type Clock = DateTime -> real

  // ----- big-endian integers -------------------------------------------------

  function Pow256(k: nat): (p: nat)
    ensures 1 <= p
  {
    if k == 0 then 1 else 256 * Pow256(k - 1)
  }

  /** The unsigned value of bytes, most significant first. */
  function BigEndian(s: seq<byte>): (n: nat)
    ensures n < Pow256(|s|)
  {
    if s == [] then 0 else BigEndian(s[..|s| - 1]) * 256 + s[|s| - 1]
  }

  /** The k least significant bytes of n, most significant first. */
  function ToBigEndian(k: nat, n: nat): (s: seq<byte>)
    ensures |s| == k
  {
    if k == 0 then [] else ToBigEndian(k - 1, n / 256) + [n % 256]
  }

  lemma {:induction false} BigEndianOfToBigEndian(k: nat, n: nat)
    requires n < Pow256(k)
    ensures BigEndian(ToBigEndian(k, n)) == n
  {
    if k > 0 {
      var s := ToBigEndian(k, n);
      assert s[..|s| - 1] == ToBigEndian(k - 1, n / 256);
      assert n / 256 < Pow256(k - 1);
      BigEndianOfToBigEndian(k - 1, n / 256);
    }
  }

  lemma {:induction false} ToBigEndianOfBigEndian(s: seq<byte>)
    ensures ToBigEndian(|s|, BigEndian(s)) == s
  {
    if s != [] {
      var init := s[..|s| - 1];
      var n := BigEndian(s);
      assert n / 256 == BigEndian(init);
      assert n % 256 == s[|s| - 1];
      ToBigEndianOfBigEndian(init);
      assert s == init + [s[|s| - 1]];
    }
  }

  lemma BigEndianFour(s: seq<byte>)
    requires |s| == 4
    ensures BigEndian(s) == s[0] as int * 0x100_0000 + s[1] as int * 0x1_0000 + s[2] as int * 0x100 + s[3]
  {
    var s1, s2, s3 := s[..1], s[..2], s[..3];
    assert s1[..0] == [] && s2[..1] == s1 && s3[..2] == s2 && s[..3] == s3;
    assert BigEndian(s1) == s[0];
    assert BigEndian(s2) == BigEndian(s1) * 256 + s[1];
    assert BigEndian(s3) == BigEndian(s2) * 256 + s[2];
    assert BigEndian(s) == BigEndian(s3) * 256 + s[3];
  }

  // ----- signed values -------------------------------------------------------

  /** A byte read as a signed char, as struct.unpack('b', ...) does: the value
      in [-128, 128) congruent to it modulo 256. */
  function SignedByte(b: byte): (r: int)
    ensures -128 <= r < 128
    ensures r % 256 == b
  {
    if b < 128 then b else b - 256
  }

  /** The byte that packs a signed char. */
  function PackByte(x: int): (b: byte)
    requires -128 <= x < 128
    ensures SignedByte(b) == x
  {
    if x < 0 then x + 256 else x
  }

  /** Four bytes read as a two's-complement 32-bit integer: the value in
      [-2^31, 2^31) congruent to their unsigned value modulo 2^32. */
  function Signed32(u: nat): (r: int)
    requires u < 0x1_0000_0000
    ensures -0x8000_0000 <= r < 0x8000_0000
    ensures r % 0x1_0000_0000 == u
  {
    if u < 0x8000_0000 then u else u - 0x1_0000_0000
  }

  /** The big-endian two's-complement bytes of a 32-bit integer, as
      struct.pack('>i', x) writes them. */
  function PackInt32(x: int): (s: seq<byte>)
    requires -0x8000_0000 <= x < 0x8000_0000
    ensures |s| == 4
  {
    ToBigEndian(4, if x < 0 then x + 0x1_0000_0000 else x)
  }

  // ----- field decoders --------------------------------------------------------

  /** getInt: data bytes 4..7 as a big-endian signed 32-bit integer. A frame
      shorter than 8 bytes makes struct.unpack raise. */
  function GetInt(data: seq<byte>): (r: Result<int>)
    ensures r.Err? <==> |data| < 8
    ensures r.Err? ==> r.fault == StructError
    ensures r.Ok? ==> -0x8000_0000 <= r.value < 0x8000_0000
    ensures r.Ok? ==> (r.value < 0 <==> data[4] >= 128)
  {
    if |data| < 8 then Err(StructError)
    else
      BigEndianFour(data[4..8]);
      Ok(Signed32(BigEndian(data[4..8])))
  }

  /** Whatever surrounds them, four packed bytes at offset 4 decode to the
      integer that was packed. */
  lemma GetIntOfPacked(head: seq<byte>, x: int, tail: seq<byte>)
    requires |head| == 4
    requires -0x8000_0000 <= x < 0x8000_0000
    ensures GetInt(head + PackInt32(x) + tail) == Ok(x)
  {
    var u := if x < 0 then x + 0x1_0000_0000 else x;
    var data := head + PackInt32(x) + tail;
    assert data[4..8] == PackInt32(x);
    assert Pow256(4) == 0x1_0000_0000;
    BigEndianOfToBigEndian(4, u);
  }

  /** Conversely, packing the decoded integer gives back bytes 4..7. */
  lemma PackedOfGetInt(data: seq<byte>)
    requires 8 <= |data|
    ensures GetInt(data).Ok? && PackInt32(GetInt(data).value) == data[4..8]
  {
    ToBigEndianOfBigEndian(data[4..8]);
    assert Pow256(4) == 0x1_0000_0000;
  }

  /** getDoubleL: the same integer in units of 1e-7 degree, as degrees. */
  function GetDoubleL(data: seq<byte>): (r: Result<real>)
    ensures r.Err? <==> |data| < 8
    ensures r.Err? ==> r.fault == StructError
    ensures r.Ok? ==> r.value * 10000000.0 == GetInt(data).value as real
    ensures r.Ok? ==> -214.7483648 <= r.value < 214.7483648
  {
    match GetInt(data)
    case Err(f) => Err(f)
    case Ok(n) => Ok(n as real / 10000000.0)
  }

  /** getFloat, with the IEEE-754 reading itself a parameter. */
  function GetFloat(data: seq<byte>, toFloat: FloatDecoder): (r: Result<real>)
    ensures r.Err? <==> |data| < 8
    ensures r.Err? ==> r.fault == StructError
    ensures r.Ok? ==> r.value == toFloat(data[4..8])
  {
    if |data| < 8 then Err(StructError) else Ok(toFloat(data[4..8]))
  }

  /** toDeg: a heading in (-360, 0) is moved into [0, 360) by adding a full
      turn; any other value is kept. */
  function ToDeg(val: real): (r: real)
    ensures r == val || r == val + 360.0
    ensures 0.0 <= val ==> r == val
    ensures -360.0 <= val < 360.0 ==> 0.0 <= r < 360.0
  {
    if val < 0.0 then val + 360.0 else val
  }

  /** Normalising a normalised heading changes nothing. */
  lemma ToDegIdempotent(val: real)
    requires -360.0 <= val
    ensures ToDeg(ToDeg(val)) == ToDeg(val)
  {
  }

  // ----- the UTC time frames --------------------------------------------------

  /** The datetime fields a UTC time frame (id 1200) carries together with the
      cached UTC date frame (id 1206): the last four bytes of each, read as
      signed chars, give day, month, century and year of century, then hour,
      minute, second and a fourth field that lands in the microsecond. */
  function UtcFields(date: seq<byte>, time: seq<byte>): (t: DateTime)
    requires |date| == 8 && |time| == 8
    ensures t.year == SignedByte(date[6]) * 100 + SignedByte(date[7])
    ensures t.month == SignedByte(date[5]) && t.day == SignedByte(date[4])
    ensures t.hour == SignedByte(time[4]) && t.minute == SignedByte(time[5])
    ensures t.second == SignedByte(time[6]) && t.microsecond == SignedByte(time[7])
  {
    var ud := date[4..];
    var ut := time[4..];
    DateTime(SignedByte(ud[2]) * 100 + SignedByte(ud[3]), SignedByte(ud[1]), SignedByte(ud[0]),
             SignedByte(ut[0]), SignedByte(ut[1]), SignedByte(ut[2]), SignedByte(ut[3]))
  }

  /** The datetime of a time frame and a date frame. Either buffer not exactly
      8 bytes long makes struct.unpack('4b', ...) raise; fields out of range
      make datetime raise. */
  function UtcOf(date: seq<byte>, time: seq<byte>): (r: Result<DateTime>)
    ensures |date| != 8 || |time| != 8 ==> r == Err(StructError)
    ensures |date| == 8 && |time| == 8 ==>
      && (r.Ok? <==> ValidDateTime(UtcFields(date, time)))
      && (r.Ok? ==> r.value == UtcFields(date, time))
      && (r.Err? ==> r.fault == ValueError)
  {
    if |date| != 8 || |time| != 8 then Err(StructError)
    else
      var t := UtcFields(date, time);
      if ValidDateTime(t) then Ok(t) else Err(ValueError)
  }

  /** The date frame a sender writes for t. */
  function DateFrame(t: DateTime): (s: seq<byte>)
    requires ValidDateTime(t)
    ensures |s| == 8
  {
    [0, 0, 0, 0, PackByte(t.day), PackByte(t.month), PackByte(t.year / 100), PackByte(t.year % 100)]
  }

  /** The time frame a sender writes for t; its last byte only holds a
      microsecond below 128. */
  function TimeFrame(t: DateTime): (s: seq<byte>)
    requires ValidDateTime(t) && t.microsecond < 128
    ensures |s| == 8
  {
    [0, 0, 0, 0, PackByte(t.hour), PackByte(t.minute), PackByte(t.second), PackByte(t.microsecond)]
  }

  /** Date and time frames written for t decode back to t. */
  lemma UtcOfFrames(t: DateTime)
    requires ValidDateTime(t) && t.microsecond < 128
    ensures UtcOf(DateFrame(t), TimeFrame(t)) == Ok(t)
  {
    assert t.year / 100 * 100 + t.year % 100 == t.year;
  }

  // ----- CanbusPos -------------------------------------------------------------

  /** The fields of a CanbusPos reader. None stands both for the None the
      constructor assigns and, for `tt` and `utcDateData`, for an attribute
      the constructor never creates. */
  datatype BusState = BusState(utc: Option<real>, lat: Option<real>, lon: Option<real>,
                               th: Option<real>, tt: Option<real>,
                               windDirection: Option<real>, utcDateData: Option<seq<byte>>)

  function BusInitial(): BusState {
    BusState(None, None, None, None, None, None, None)
  }

  /** The ids CanbusPos.run acts on. */
  predicate BusHandled(id: int) {
    id in {1200, 1206, 1036, 1037, 321, 1040, 334}
  }

  /** One iteration of CanbusPos.run: the new fields, or the exception the
      frame raises (raised before any field is assigned). */
  function BusStep(s: BusState, m: Frame, toFloat: FloatDecoder, clock: Clock): (r: Result<BusState>)
    ensures !BusHandled(m.id) ==> r == Ok(s)
    ensures m.id == 1036 ==>
      (r.Err? <==> |m.data| < 8) && (r.Ok? ==> r.value == s.(lat := Some(GetDoubleL(m.data).value)))
    ensures m.id == 1037 ==>
      (r.Err? <==> |m.data| < 8) && (r.Ok? ==> r.value == s.(lon := Some(GetDoubleL(m.data).value)))
    ensures m.id == 321 ==>
      (r.Err? <==> |m.data| < 8)
      && (r.Ok? ==> r.value == s.(th := Some(ToDeg(toFloat(m.data[4..8])))))
    ensures m.id == 334 ==>
      (r.Err? <==> |m.data| < 8)
      && (r.Ok? ==> r.value == s.(windDirection := Some(ToDeg(toFloat(m.data[4..8])))))
    ensures m.id == 1040 ==>
      (r.Err? <==> |m.data| < 8) && (r.Ok? ==> r.value == s.(tt := Some(toFloat(m.data[4..8]))))
    ensures m.id == 1206 ==> r == Ok(s.(utcDateData := Some(m.data)))
    ensures m.id == 1200 && s.utcDateData.None? ==> r == Err(AttributeError)
    ensures m.id == 1200 && s.utcDateData == Some([]) ==> r == Ok(s)
    ensures m.id == 1200 && s.utcDateData.Some? && s.utcDateData.value != [] ==>
      match UtcOf(s.utcDateData.value, m.data)
      case Ok(t) => r == Ok(s.(utc := Some(clock(t))))
      case Err(f) => r == Err(f)
    ensures r.Err? ==> r.fault in {StructError, ValueError, AttributeError}
  {
    if m.id == 1200 then
      match s.utcDateData
      case None => Err(AttributeError)
      case Some(d) =>
        if d == [] then Ok(s)
        else
          match UtcOf(d, m.data)
          case Err(f) => Err(f)
          case Ok(t) => Ok(s.(utc := Some(clock(t))))
    else if m.id == 1206 then Ok(s.(utcDateData := Some(m.data)))
    else if m.id == 1036 then
      match GetDoubleL(m.data)
      case Err(f) => Err(f)
      case Ok(v) => Ok(s.(lat := Some(v)))
    else if m.id == 1037 then
      match GetDoubleL(m.data)
      case Err(f) => Err(f)
      case Ok(v) => Ok(s.(lon := Some(v)))
    else if m.id == 321 then
      match GetFloat(m.data, toFloat)
      case Err(f) => Err(f)
      case Ok(v) => Ok(s.(th := Some(ToDeg(v))))
    else if m.id == 1040 then
      match GetFloat(m.data, toFloat)
      case Err(f) => Err(f)
      case Ok(v) => Ok(s.(tt := Some(v)))
    else if m.id == 334 then
      match GetFloat(m.data, toFloat)
      case Err(f) => Err(f)
      case Ok(v) => Ok(s.(windDirection := Some(ToDeg(v))))
    else Ok(s)
  }

  /** CanbusPos.run over a sequence of frames: the fields when the frames run
      out, and the exception that ended the loop early, if any (the thread
      catches and prints it, then returns). */
  function BusRun(s: BusState, msgs: seq<Frame>, toFloat: FloatDecoder, clock: Clock): (BusState, Option<Fault>)
    decreases |msgs|
  {
    if msgs == [] then (s, None)
    else
      match BusStep(s, msgs[0], toFloat, clock)
      case Err(f) => (s, Some(f))
      case Ok(s') => BusRun(s', msgs[1..], toFloat, clock)
  }

  /** Latitude and longitude only change on a 1036 or 1037 frame: until the
      first such frame arrives getLocation keeps reporting what it did. */
  lemma {:induction false} BusLocationKept(s: BusState, msgs: seq<Frame>, toFloat: FloatDecoder, clock: Clock)
    requires forall i :: 0 <= i < |msgs| ==> msgs[i].id != 1036 && msgs[i].id != 1037
    ensures BusRun(s, msgs, toFloat, clock).0.lat == s.lat
    ensures BusRun(s, msgs, toFloat, clock).0.lon == s.lon
    decreases |msgs|
  {
    if msgs != [] {
      match BusStep(s, msgs[0], toFloat, clock)
      case Err(_) =>
      case Ok(s') =>
        assert s'.lat == s.lat && s'.lon == s.lon;
        BusLocationKept(s', msgs[1..], toFloat, clock);
    }
  }

  /** A time frame before any date frame raises AttributeError, which ends the
      loop with no field changed. */
  lemma TimeBeforeDate(s: BusState, m: Frame, rest: seq<Frame>, toFloat: FloatDecoder, clock: Clock)
    requires s.utcDateData.None? && m.id == 1200
    ensures BusRun(s, [m] + rest, toFloat, clock) == (s, Some(AttributeError))
  {
    assert ([m] + rest)[0] == m;
  }

  /** A date frame followed by a time frame, both written for t, set utc to
      t's timestamp and change nothing else but the cached date. */
  lemma UtcFromFrames(s: BusState, t: DateTime, f1: bool, f2: bool, toFloat: FloatDecoder, clock: Clock)
    requires ValidDateTime(t) && t.microsecond < 128
    ensures BusRun(s, [Frame(1206, DateFrame(t), f1), Frame(1200, TimeFrame(t), f2)], toFloat, clock)
            == (s.(utcDateData := Some(DateFrame(t)), utc := Some(clock(t))), None)
  {
    UtcOfFrames(t);
    var msgs := [Frame(1206, DateFrame(t), f1), Frame(1200, TimeFrame(t), f2)];
    var s1 := s.(utcDateData := Some(DateFrame(t)));
    assert BusStep(s, msgs[0], toFloat, clock) == Ok(s1);
    assert msgs[1..] == [Frame(1200, TimeFrame(t), f2)];
    var s2 := s1.(utc := Some(clock(t)));
    assert BusStep(s1, msgs[1], toFloat, clock) == Ok(s2);
    assert msgs[1..][1..] == [];
    assert BusRun(s1, msgs[1..], toFloat, clock) == BusRun(s2, [], toFloat, clock);
  }

  /** The CanbusPos reader thread, its fields updated by each frame it reads
      from the bus. */
  class CanbusPos {
    var utc: Option<real>
    var lat: Option<real>
    var lon: Option<real>
    var th: Option<real>
    var tt: Option<real>
    var windDirection: Option<real>
    var utcDateData: Option<seq<byte>>

    function State(): BusState
      reads this
    {
      BusState(utc, lat, lon, th, tt, windDirection, utcDateData)
    }

    constructor ()
      ensures State() == BusInitial()
    {
      utc, lat, lon, th, tt, windDirection, utcDateData := None, None, None, None, None, None, None;
    }

    /** One pass of the loop body of run: the fields after frame m, or the
        exception it raised with the fields untouched. */
    method Receive(m: Frame, toFloat: FloatDecoder, clock: Clock) returns (fault: Option<Fault>)
      modifies this
      ensures match BusStep(old(State()), m, toFloat, clock)
              case Ok(s') => fault.None? && State() == s'
              case Err(f) => fault == Some(f) && State() == old(State())
    {
      fault := None;
      if m.id == 1200 {
        if utcDateData.None? {
          fault := Some(AttributeError);
        } else if utcDateData.value != [] {
          var u := UtcOf(utcDateData.value, m.data);
          if u.Err? {
            fault := Some(u.fault);
          } else {
            utc := Some(clock(u.value));
          }
        }
      } else if m.id == 1206 {
        utcDateData := Some(m.data);
      } else if m.id == 1036 || m.id == 1037 {
        var v := GetDoubleL(m.data);
        if v.Err? {
          fault := Some(v.fault);
        } else if m.id == 1036 {
          lat := Some(v.value);
        } else {
          lon := Some(v.value);
        }
      } else if m.id == 321 || m.id == 1040 || m.id == 334 {
        var v := GetFloat(m.data, toFloat);
        if v.Err? {
          fault := Some(v.fault);
        } else if m.id == 321 {
          th := Some(ToDeg(v.value));
        } else if m.id == 1040 {
          tt := Some(v.value);
        } else {
          windDirection := Some(ToDeg(v.value));
        }
      }
    }

    /** run: reads frames until they run out or one raises. */
    method Run(msgs: seq<Frame>, toFloat: FloatDecoder, clock: Clock) returns (fault: Option<Fault>)
      modifies this
      ensures (State(), fault) == BusRun(old(State()), msgs, toFloat, clock)
    {
      fault := None;
      var i := 0;
      while i < |msgs|
        invariant 0 <= i <= |msgs|
        invariant fault.None?
        invariant BusRun(old(State()), msgs, toFloat, clock) == BusRun(State(), msgs[i..], toFloat, clock)
      {
        ghost var before := State();
        assert msgs[i..][0] == msgs[i] && msgs[i..][1..] == msgs[i + 1..];
        fault := Receive(msgs[i], toFloat, clock);
        if fault.Some? {
          assert BusRun(before, msgs[i..], toFloat, clock) == (before, fault);
          return;
        }
        i := i + 1;
      }
    }

    /** getLocation: the last latitude and longitude received. */
    method GetLocation() returns (latitude: Option<real>, longitude: Option<real>)
      ensures (latitude, longitude) == (State().lat, State().lon)
    {
      latitude, longitude := lat, lon;
    }
  }

  // ----- CanlogPos -------------------------------------------------------------

  /** The fields of a CanlogPos reader. */
  datatype LogState = LogState(lat: Option<real>, lon: Option<real>, th: Option<real>)

  function LogInitial(): LogState {
    LogState(None, None, None)
  }

  /** One iteration of the loop of CanlogPos.run: error frames are skipped;
      1036, 1037 and 321 set latitude, longitude and the heading normalised
      as toDeg does; 340 (flap position) is decoded and only printed. A frame
      shorter than 8 bytes raises. */
  function LogStep(s: LogState, m: Frame, toFloat: FloatDecoder): (r: Result<LogState>)
    ensures m.isErrorFrame ==> r == Ok(s)
    ensures !m.isErrorFrame && m.id in {1036, 1037, 321, 340} ==> (r.Err? <==> |m.data| < 8)
    ensures !m.isErrorFrame && m.id == 1036 && r.Ok? ==> r.value == s.(lat := Some(GetDoubleL(m.data).value))
    ensures !m.isErrorFrame && m.id == 1037 && r.Ok? ==> r.value == s.(lon := Some(GetDoubleL(m.data).value))
    ensures !m.isErrorFrame && m.id == 321 && r.Ok? ==> r.value == s.(th := Some(ToDeg(toFloat(m.data[4..8]))))
    ensures m.id !in {1036, 1037, 321} ==> r.Ok? ==> r.value == s
    ensures !m.isErrorFrame && m.id !in {1036, 1037, 321, 340} ==> r == Ok(s)
    ensures r.Err? ==> r.fault == StructError
  {
    if m.isErrorFrame then Ok(s)
    else if m.id == 1036 then
      match GetDoubleL(m.data)
      case Err(f) => Err(f)
      case Ok(v) => Ok(s.(lat := Some(v)))
    else if m.id == 1037 then
      match GetDoubleL(m.data)
      case Err(f) => Err(f)
      case Ok(v) => Ok(s.(lon := Some(v)))
    else if m.id == 321 then
      match GetFloat(m.data, toFloat)
      case Err(f) => Err(f)
      case Ok(th) => Ok(s.(th := Some(if th < 0.0 then th + 360.0 else th)))
    else if m.id == 340 then
      match GetInt(m.data)
      case Err(f) => Err(f)
      case Ok(_) => Ok(s)
    else Ok(s)
  }

  /** The loop of CanlogPos.run over a sequence of frames: the fields when the
      frames run out, and the exception that ended it early, if any. */
  function LogRun(s: LogState, msgs: seq<Frame>, toFloat: FloatDecoder): (LogState, Option<Fault>)
    decreases |msgs|
  {
    if msgs == [] then (s, None)
    else
      match LogStep(s, msgs[0], toFloat)
      case Err(f) => (s, Some(f))
      case Ok(s') => LogRun(s', msgs[1..], toFloat)
  }

  /** Error frames change nothing, wherever they occur. */
  lemma {:induction false} LogSkipsErrorFrames(s: LogState, msgs: seq<Frame>, toFloat: FloatDecoder)
    requires forall i :: 0 <= i < |msgs| ==> msgs[i].isErrorFrame
    ensures LogRun(s, msgs, toFloat) == (s, None)
    decreases |msgs|
  {
    if msgs != [] {
      LogSkipsErrorFrames(s, msgs[1..], toFloat);
    }
  }

  /** Latitude and longitude only change on a valid 1036 or 1037 frame. */
  lemma {:induction false} LogLocationKept(s: LogState, msgs: seq<Frame>, toFloat: FloatDecoder)
    requires forall i :: 0 <= i < |msgs| ==> msgs[i].isErrorFrame || (msgs[i].id != 1036 && msgs[i].id != 1037)
    ensures LogRun(s, msgs, toFloat).0.lat == s.lat
    ensures LogRun(s, msgs, toFloat).0.lon == s.lon
    decreases |msgs|
  {
    if msgs != [] {
      match LogStep(s, msgs[0], toFloat)
      case Err(_) =>
      case Ok(s') =>
        assert s'.lat == s.lat && s'.lon == s.lon;
        LogLocationKept(s', msgs[1..], toFloat);
    }
  }

  /** CanlogPos.run as written: before its loop it formats datetime.now(), but
      `datetime` names the module there, which has no attribute `now`; the
      AttributeError ends run before any frame is read. */
  function LogRunAsWritten(s: LogState, msgs: seq<Frame>, toFloat: FloatDecoder): (r: (LogState, Option<Fault>))
    ensures r == (s, Some(AttributeError))
  {
    (s, Some(AttributeError))
  }

  /** A single position frame shows the difference: the loop records the
      latitude, run as written never does. */
  lemma LogRunAsWrittenMissesFix(toFloat: FloatDecoder)
    ensures LogRunAsWritten(LogInitial(), [Frame(1036, [0, 0, 0, 0, 0, 0, 0, 1], false)], toFloat).0.lat == None
    ensures LogRun(LogInitial(), [Frame(1036, [0, 0, 0, 0, 0, 0, 0, 1], false)], toFloat).0.lat == Some(0.0000001)
  {
    var data: seq<byte> := [0, 0, 0, 0, 0, 0, 0, 1];
    BigEndianFour(data[4..8]);
    assert GetInt(data) == Ok(1);
    var msgs := [Frame(1036, data, false)];
    assert msgs[1..] == [];
  }

  /** The CanlogPos reader thread replaying a log file. */
  class CanlogPos {
    var lat: Option<real>
    var lon: Option<real>
    var th: Option<real>

    function State(): LogState
      reads this
    {
      LogState(lat, lon, th)
    }

    constructor ()
      ensures State() == LogInitial()
    {
      lat, lon, th := None, None, None;
    }

    /** One pass of the loop body of run. */
    method Receive(m: Frame, toFloat: FloatDecoder) returns (fault: Option<Fault>)
      modifies this
      ensures match LogStep(old(State()), m, toFloat)
              case Ok(s') => fault.None? && State() == s'
              case Err(f) => fault == Some(f) && State() == old(State())
    {
      fault := None;
      if m.isErrorFrame {
        return;
      }
      if m.id == 1036 || m.id == 1037 {
        var v := GetDoubleL(m.data);
        if v.Err? {
          fault := Some(v.fault);
        } else if m.id == 1036 {
          lat := Some(v.value);
        } else {
          lon := Some(v.value);
        }
      } else if m.id == 321 {
        var v := GetFloat(m.data, toFloat);
        if v.Err? {
          fault := Some(v.fault);
        } else if v.value < 0.0 {
          th := Some(v.value + 360.0);
        } else {
          th := Some(v.value);
        }
      } else if m.id == 340 {
        var fp := GetInt(m.data);
        if fp.Err? {
          fault := Some(fp.fault);
        }
      }
    }

    /** The loop of run, started as intended (see LogRunAsWritten). */
    method Run(msgs: seq<Frame>, toFloat: FloatDecoder) returns (fault: Option<Fault>)
      modifies this
      ensures (State(), fault) == LogRun(old(State()), msgs, toFloat)
    {
      fault := None;
      var i := 0;
      while i < |msgs|
        invariant 0 <= i <= |msgs|
        invariant fault.None?
        invariant LogRun(old(State()), msgs, toFloat) == LogRun(State(), msgs[i..], toFloat)
      {
        ghost var before := State();
        assert msgs[i..][0] == msgs[i] && msgs[i..][1..] == msgs[i + 1..];
        fault := Receive(msgs[i], toFloat);
        if fault.Some? {
          assert LogRun(before, msgs[i..], toFloat) == (before, fault);
          return;
        }
        i := i + 1;
      }
    }

    /** getLocation: the last latitude and longitude read from the log. */
    method GetLocation() returns (latitude: Option<real>, longitude: Option<real>)
      ensures (latitude, longitude) == (State().lat, State().lon)
    {
      latitude, longitude := lat, lon;
    }
  }
}
