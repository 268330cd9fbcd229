/** The offline timestamp corrector for candump text logs of CANaerospace
    traffic. Each line "(ssssssssss.uuuuuu) iface ID#HEX" is validated, parsed
    and re-timestamped by the offset between the logger's own clock (sync frames
    with id 0x1FFFFFF0) and the recorded time; the output is split into sessions
    where consecutive sync frames are more than one second apart, and GPS time
    frames (ids 1200 and 1206) give discrepancy samples per session.

    Timestamps are integer microseconds: the validator fixes them to ten integer
    and six fractional digits. The logger and GPS clocks are turned into epoch
    seconds by datetime(...).timestamp(), which depends on the local time zone;
    that conversion is the parameter `clock`. */
module CorrectTs {
  import opened Outcomes
  import opened Text
  import opened Calendar
  import opened Counting

  const SyncId: int := 0x1FFFFFF0
  const UtcTimeId: int := 1200
  const UtcDateId: int := 1206

  // ---------------------------------------------------------------------------
  // check(line)

  /** The character the fixed prefix "(ssssssssss.uuuuuu)" has at position k. */
  predicate FitsTemplateAt(k: nat, c: char) {
    if k == 0 then c == '('
    else if k == 11 then c == '.'
    else if k == 18 then c == ')'
    else IsDigit(c)
  }

  /** Every character of line within the first 19 fits the prefix template. */
  predicate FitsTemplate(line: string) {
    forall k :: 0 <= k < |line| && k < 19 ==> FitsTemplateAt(k, line[k])
  }

  /** The line starts with the full timestamp "(ssssssssss.uuuuuu)". */
  predicate TimestampPrefix(line: string) {
    |line| >= 19 && FitsTemplate(line)
  }

  /** check(line): the line starts with '(', ten digits, '.', six digits, ')'.
      A non-empty line that fits the template as far as it goes but is shorter
      than 19 characters makes the subscript line[11] or line[18] raise. */
  function Check(line: string): (r: Result<bool>)
    ensures r == Ok(true) <==> TimestampPrefix(line)
    ensures r.Err? <==> 0 < |line| < 19 && FitsTemplate(line)
    ensures r.Err? ==> r.fault == IndexError
  {
    if |line| == 0 || line[0] != '(' then Ok(false)
    else if !AllDigits(Slice(line, 1, 11)) then Ok(false)
    else if |line| <= 11 then Err(IndexError)
    else if line[11] != '.' then Ok(false)
    else if !AllDigits(Slice(line, 12, 18)) then Ok(false)
    else if |line| <= 18 then Err(IndexError)
    else if line[18] != ')' then Ok(false)
    else Ok(true)
  }

  /** The commented example with seven fractional digits is rejected. */
  lemma CheckRejectsSevenDigits()
    ensures Check("(1569437515.1000000) can0 141#0A0200A942E1CBEA") == Ok(false)
  {
    var line := "(1569437515.1000000) can0 141#0A0200A942E1CBEA";
    assert line[18] == '0';
    assert !FitsTemplateAt(18, line[18]);
  }

  /** The timestamp of a checked line, in microseconds. */
  function TimestampMicros(line: string): nat
    requires TimestampPrefix(line)
  {
    assert AllDigits(line[1..11]) by {
      forall k | 0 <= k < 10 ensures IsDigit(line[1..11][k]) { assert FitsTemplateAt(k + 1, line[k + 1]); }
    }
    assert AllDigits(line[12..18]) by {
      forall k | 0 <= k < 6 ensures IsDigit(line[12..18][k]) { assert FitsTemplateAt(k + 12, line[k + 12]); }
    }
    DecValue(line[1..11]) * 1_000_000 + DecValue(line[12..18])
  }

  // ---------------------------------------------------------------------------
  // float() and "{:f}" on timestamps with six decimals

  /** float(s) of "<digits>.<six digits>", in microseconds; None for any other form. */
  function ParseUnsignedMicros(s: string): Option<nat> {
    if |s| >= 8 && s[|s| - 7] == '.' && AllDigits(s[..|s| - 7]) && AllDigits(s[|s| - 6..])
    then Some(DecValue(s[..|s| - 7]) * 1_000_000 + DecValue(s[|s| - 6..]))
    else None
  }

  /** float(s) of an optionally negative six-decimal text, in microseconds. */
  function ParseMicros(s: string): Option<int> {
    if |s| >= 1 && s[0] == '-' then
      match ParseUnsignedMicros(s[1..])
      case Some(v) => Some(-(v as int))
      case None => None
    else ParseUnsignedMicros(s)
  }

  function NumDigits(n: nat): (w: nat)
    ensures 1 <= w && n < Pow(10, w)
  {
    if n < 10 then 1 else 1 + NumDigits(n / 10)
  }

  /** str(n): the decimal numeral of n without leading zeros. */
  function DecimalString(n: nat): string {
    Numeral(n, 10, NumDigits(n))
  }

  /** "{:f}".format(t / 1e6): the integer part, '.', six decimals. */
  function FormatMicros(t: int): string {
    if t < 0 then "-" + FormatUnsignedMicros(-t) else FormatUnsignedMicros(t)
  }

  function FormatUnsignedMicros(t: nat): (s: string)
    ensures |s| >= 8 && IsDigit(s[0])
  {
    var s := DecimalString(t / 1_000_000) + "." + Numeral(t % 1_000_000, 10, 6);
    DecNumeral(t / 1_000_000, NumDigits(t / 1_000_000));
    s
  }

  lemma ParseFormattedUnsigned(t: nat)
    ensures ParseUnsignedMicros(FormatUnsignedMicros(t)) == Some(t)
  {
    DivBounds(t, 1_000_000);
    DivMod(t, 1_000_000);
    FormatUnsignedParts(t);
    ParseOfFormatParts(t / 1_000_000, t % 1_000_000);
  }

  lemma FormatUnsignedParts(t: nat)
    ensures FormatUnsignedMicros(t)
            == DecimalString(t / 1_000_000) + "." + Numeral(t % 1_000_000, 10, 6)
  {
  }

  /** Seconds and six decimals, printed and read back. */
  lemma ParseOfFormatParts(q: nat, r: nat)
    requires r < 1_000_000
    ensures ParseUnsignedMicros(DecimalString(q) + "." + Numeral(r, 10, 6)) == Some(q * 1_000_000 + r)
  {
    DecNumeral(q, NumDigits(q));
    assert Pow(10, 6) == 1_000_000;
    DecNumeral(r, 6);
    ParseUnsignedOfParts(DecimalString(q), Numeral(r, 10, 6));
  }

  /** An integer part, '.', and six decimals read back as their microseconds. */
  lemma ParseUnsignedOfParts(a: string, b: string)
    requires 1 <= |a| && AllDigits(a) && |b| == 6 && AllDigits(b)
    ensures ParseUnsignedMicros(a + "." + b) == Some(DecValue(a) * 1_000_000 + DecValue(b))
  {
    var s := a + "." + b;
    assert s[..|s| - 7] == a && s[|s| - 7] == '.' && s[|s| - 6..] == b;
  }

  /** Reading a formatted timestamp back gives the same microseconds. */
  lemma ParseFormatted(t: int)
    ensures ParseMicros(FormatMicros(t)) == Some(t)
  {
    var u := if t < 0 then -t else t;
    ParseFormattedUnsigned(u);
    ParseMicrosSigned(FormatUnsignedMicros(u), u);
  }

  /** A text of unsigned microseconds reads as itself, and with a '-' in front
      as its negation. */
  lemma ParseMicrosSigned(s: string, v: nat)
    requires 1 <= |s| && IsDigit(s[0])
    requires ParseUnsignedMicros(s) == Some(v)
    ensures ParseMicros(s) == Some(v)
    ensures ParseMicros("-" + s) == Some(-(v as int))
  {
    assert ("-" + s)[1..] == s;
  }

  // ---------------------------------------------------------------------------
  // getCanDate(line)

  /** The fields getCanDate returns. */
  datatype CanDate = CanDate(ts: int, canDev: string, canId: string, data: string, nodeId: string)

  /** getCanDate(line) of a checked line: the timestamp of the first field, the
      interface (second field), and from the third field "ID#PAYLOAD" the id
      text, the data after the 4-byte CANaerospace header (payload characters
      8..39) and the node id (payload characters 0..1). A line with fewer than
      three fields, or whose third field has no '#', raises IndexError. */
  function GetCanDate(line: string): (r: Result<CanDate>)
    requires TimestampPrefix(line)
    ensures r.Ok? <==> |Split(line)| >= 3 && '#' in Split(line)[2]
    ensures r.Err? ==> r.fault == IndexError
    ensures r.Ok? ==> r.value.ts == TimestampMicros(line) && r.value.canDev == Split(line)[1]
  {
    var parts := Split(line);
    FirstToken(line, 19);
    var ts := ParseUnsignedMicros(parts[0][1..18]);
    assert parts[0][1..18] == line[1..18];
    assert line[1..18][..10] == line[1..11] && line[1..18][11..] == line[12..18];
    assert ts == Some(TimestampMicros(line));
    if |parts| < 3 then Err(IndexError)
    else
      var parts2 := SplitOn(parts[2], '#');
      if |parts2| < 2 then
        assert '#' !in parts[2] by { JoinSplitOn(parts[2], '#'); }
        Err(IndexError)
      else
        assert '#' in parts[2] by {
          JoinSplitOn(parts[2], '#');
          assert JoinOn(parts2, '#')[|parts2[0]|] == '#';
        }
        Ok(CanDate(ts.value, parts[1], parts2[0], Slice(parts2[1], 8, 40), Slice(parts2[1], 0, 2)))
  }

  /** The first field of a candump line as the logger writes it:
      "(ssssssssss.uuuuuu)". */
  function TimestampField(sec: nat, usec: nat): string {
    "(" + Numeral(sec, 10, 10) + "." + Numeral(usec, 10, 6) + ")"
  }

  /** The logger's timestamp field passes check and reads back as its
      microseconds. */
  lemma TimestampFieldValue(sec: nat, usec: nat)
    requires sec < Pow(10, 10) && usec < 1_000_000
    ensures |TimestampField(sec, usec)| == 19 && TimestampPrefix(TimestampField(sec, usec))
    ensures TimestampMicros(TimestampField(sec, usec)) == sec * 1_000_000 + usec
  {
    var a, b := Numeral(sec, 10, 10), Numeral(usec, 10, 6);
    var t0 := TimestampField(sec, usec);
    DecNumeral(sec, 10);
    assert usec < Pow(10, 6);
    DecNumeral(usec, 6);
    assert t0[1..11] == a;
    assert t0[12..18] == b;
    forall k | 0 <= k < 19 ensures FitsTemplateAt(k, t0[k]) {
      if 1 <= k <= 10 {
        assert t0[k] == a[k - 1];
      } else if 12 <= k <= 17 {
        assert t0[k] == b[k - 12];
      }
    }
  }

  /** A candump line: timestamp field, interface, frame "ID#PAYLOAD". */
  function CandumpLine(t0: string, dev: string, id: string, payload: string): string {
    t0 + " " + dev + " " + id + "#" + payload
  }

  /** A candump line starting with a checked timestamp field is checked and
      carries the field's time; the field is a token of its own. */
  lemma CandumpLinePrefix(t0: string, dev: string, id: string, payload: string, w: string)
    requires |t0| == 19 && TimestampPrefix(t0)
    ensures TimestampPrefix(CandumpLine(t0, dev, id, payload) + w)
    ensures TimestampMicros(CandumpLine(t0, dev, id, payload) + w) == TimestampMicros(t0)
    ensures IsToken(t0)
  {
    var line := CandumpLine(t0, dev, id, payload) + w;
    forall k | 0 <= k < 19 ensures line[k] == t0[k] { }
    assert line[1..11] == t0[1..11] && line[12..18] == t0[12..18];
    forall k | 0 <= k < |t0| ensures !IsSpace(t0[k]) {
      assert FitsTemplateAt(k, t0[k]);
    }
  }

  /** Three fields joined by single blanks, followed by trailing blanks. */
  lemma SplitThree(t0: string, dev: string, frame: string, w: string)
    requires IsToken(t0) && IsToken(dev) && IsToken(frame) && AllSpace(w)
    ensures Split(t0 + " " + dev + " " + frame + w) == [t0, dev, frame]
  {
    assert t0 + " " + dev + " " + frame + w == JoinSpace([t0, dev, frame]) + w by {
      JoinThree(t0, dev, frame);
    }
    SplitJoin([t0, dev, frame], w);
  }

  /** " ".join of three fields. */
  lemma JoinThree(a: string, b: string, c: string)
    ensures JoinSpace([a, b, c]) == a + " " + b + " " + c
  {
    assert JoinSpace([b, c]) == b + " " + c by { assert [b, c][1..] == [c]; }
    assert JoinSpace([a, b, c]) == a + " " + (b + " " + c) by { assert [a, b, c][1..] == [b, c]; }
  }

  lemma FrameIsToken(id: string, payload: string)
    requires NoSpace(id) && NoSpace(payload)
    ensures IsToken(id + "#" + payload)
  {
    var frame := id + "#" + payload;
    forall k | 0 <= k < |frame| ensures !IsSpace(frame[k]) {
      if k < |id| { assert frame[k] == id[k]; }
      else if k > |id| { assert frame[k] == payload[k - |id| - 1]; }
      else { assert frame[k] == '#'; }
    }
  }

  /** The three fields of a candump line. */
  lemma CandumpLineFields(t0: string, dev: string, id: string, payload: string, w: string)
    requires IsToken(t0) && IsToken(dev) && NoSpace(id) && NoSpace(payload)
    requires AllSpace(w)
    ensures Split(CandumpLine(t0, dev, id, payload) + w) == [t0, dev, id + "#" + payload]
  {
    var frame := id + "#" + payload;
    FrameIsToken(id, payload);
    assert CandumpLine(t0, dev, id, payload) + w == t0 + " " + dev + " " + frame + w;
    SplitThree(t0, dev, frame, w);
  }

  /** getCanDate inverts the candump line format: every field comes back, the
      timestamp as the microseconds of its field. */
  lemma GetCanDateOfCandumpLine(t0: string, dev: string, id: string, payload: string, w: string)
    requires |t0| == 19 && TimestampPrefix(t0)
    requires IsToken(dev) && NoSpace(id) && NoSpace(payload)
    requires '#' !in id && '#' !in payload
    requires AllSpace(w)
    ensures TimestampPrefix(CandumpLine(t0, dev, id, payload) + w)
    ensures GetCanDate(CandumpLine(t0, dev, id, payload) + w)
      == Ok(CanDate(TimestampMicros(t0), dev, id, Slice(payload, 8, 40), Slice(payload, 0, 2)))
  {
    CandumpLinePrefix(t0, dev, id, payload, w);
    CandumpLineFields(t0, dev, id, payload, w);
    GetCanDateOfFields(CandumpLine(t0, dev, id, payload) + w, TimestampMicros(t0), t0, dev, id, payload);
  }

  /** getCanDate of any line whose fields are known. */
  lemma GetCanDateOfFields(line: string, ts: nat, t0: string, dev: string, id: string, payload: string)
    requires TimestampPrefix(line) && TimestampMicros(line) == ts
    requires '#' !in id && '#' !in payload
    requires Split(line) == [t0, dev, id + "#" + payload]
    ensures GetCanDate(line) == Ok(CanDate(ts, dev, id, Slice(payload, 8, 40), Slice(payload, 0, 2)))
  {
    assert SplitOn(id + "#" + payload, '#') == [id, payload] by {
      SplitOnPair(id, payload, '#');
      assert id + "#" + payload == id + ['#'] + payload;
    }
  }

  // ---------------------------------------------------------------------------
  // Clock frames

  /** The logger's date-time in a sync line: hex fields at line positions 34:36
      (year - 2000), 37:38 (month), 38:40 (day), 40:42, 42:44 and 44:46 (hour,
      minute, second). None when a field is not hex or the date is invalid
      (int() or datetime() raise ValueError). */
  function LoggerTime(line: string): (r: Option<DateTime>)
    ensures r.Some? ==> ValidDateTime(r.value) && 2000 <= r.value.year <= 2255 && r.value.microsecond == 0
    ensures r.Some? ==> ParseHex(Slice(line, 34, 36)) == Some(r.value.year - 2000)
                        && ParseHex(Slice(line, 37, 38)) == Some(r.value.month)
                        && ParseHex(Slice(line, 38, 40)) == Some(r.value.day)
    ensures r.Some? ==> ParseHex(Slice(line, 40, 42)) == Some(r.value.hour)
                        && ParseHex(Slice(line, 42, 44)) == Some(r.value.minute)
                        && ParseHex(Slice(line, 44, 46)) == Some(r.value.second)
  {
    var y, mo, d := ParseHex(Slice(line, 34, 36)), ParseHex(Slice(line, 37, 38)), ParseHex(Slice(line, 38, 40));
    var h, mi, s := ParseHex(Slice(line, 40, 42)), ParseHex(Slice(line, 42, 44)), ParseHex(Slice(line, 44, 46));
    if y.None? || mo.None? || d.None? || h.None? || mi.None? || s.None? then None
    else
      var t := DateTime(y.value + 2000, mo.value, d.value, h.value, mi.value, s.value, 0);
      assert y.value < 256 by { assert |Slice(line, 34, 36)| <= 2; assert Pow(16, |Slice(line, 34, 36)|) <= 256; }
      if ValidDateTime(t) then Some(t) else None
  }

  /** The GPS date-time of a UTC time frame given the cached date frame data:
      year = date[4:6] * 100 + date[6:8], month = date[2:4], day = date[0:2],
      then hour, minute, second from data[0:2], data[2:4], data[4:6]. */
  function GpsTime(date: string, data: string): (r: Option<DateTime>)
    ensures r.Some? ==> ValidDateTime(r.value) && r.value.microsecond == 0
    ensures r.Some? ==> ParseHex(Slice(date, 0, 2)) == Some(r.value.day)
                        && ParseHex(Slice(date, 2, 4)) == Some(r.value.month)
                        && ParseHex(Slice(date, 4, 6)).Some? && ParseHex(Slice(date, 6, 8)).Some?
                        && r.value.year == ParseHex(Slice(date, 4, 6)).value * 100 + ParseHex(Slice(date, 6, 8)).value
    ensures r.Some? ==> ParseHex(Slice(data, 0, 2)) == Some(r.value.hour)
                        && ParseHex(Slice(data, 2, 4)) == Some(r.value.minute)
                        && ParseHex(Slice(data, 4, 6)) == Some(r.value.second)
  {
    var yh, yl, mo, d := ParseHex(Slice(date, 4, 6)), ParseHex(Slice(date, 6, 8)), ParseHex(Slice(date, 2, 4)), ParseHex(Slice(date, 0, 2));
    var h, mi, s := ParseHex(Slice(data, 0, 2)), ParseHex(Slice(data, 2, 4)), ParseHex(Slice(data, 4, 6));
    if yh.None? || yl.None? || mo.None? || d.None? || h.None? || mi.None? || s.None? then None
    else
      var t := DateTime(yh.value * 100 + yl.value, mo.value, d.value, h.value, mi.value, s.value, 0);
      if ValidDateTime(t) then Some(t) else None
  }

  /** A line holding the hex numerals of t's fields where the sync branch
      reads them decodes to t. */
  lemma LoggerTimeOfFields(line: string, t: DateTime)
    requires ValidDateTime(t) && 2000 <= t.year <= 2255 && t.microsecond == 0
    requires HexAt(line, 34, 2, t.year - 2000) && HexAt(line, 37, 1, t.month) && HexAt(line, 38, 2, t.day)
    requires HexAt(line, 40, 2, t.hour) && HexAt(line, 42, 2, t.minute) && HexAt(line, 44, 2, t.second)
    ensures LoggerTime(line) == Some(t)
  {
    assert Pow(16, 1) == 16 && Pow(16, 2) == 256;
    assert ParseHex(Slice(line, 34, 36)) == Some(t.year - 2000) by { ParseHexAt(line, 34, 2, t.year - 2000); }
    assert ParseHex(Slice(line, 37, 38)) == Some(t.month) by { ParseHexAt(line, 37, 1, t.month); }
    assert ParseHex(Slice(line, 38, 40)) == Some(t.day) by { ParseHexAt(line, 38, 2, t.day); }
    assert ParseHex(Slice(line, 40, 42)) == Some(t.hour) by { ParseHexAt(line, 40, 2, t.hour); }
    assert ParseHex(Slice(line, 42, 44)) == Some(t.minute) by { ParseHexAt(line, 42, 2, t.minute); }
    assert ParseHex(Slice(line, 44, 46)) == Some(t.second) by { ParseHexAt(line, 44, 2, t.second); }
    LoggerTimeOfHex(line, t);
  }

  /** The sync branch builds t from fields that read back as t's. */
  lemma LoggerTimeOfHex(line: string, t: DateTime)
    requires ValidDateTime(t) && 2000 <= t.year <= 2255 && t.microsecond == 0
    requires ParseHex(Slice(line, 34, 36)) == Some(t.year - 2000)
    requires ParseHex(Slice(line, 37, 38)) == Some(t.month) && ParseHex(Slice(line, 38, 40)) == Some(t.day)
    requires ParseHex(Slice(line, 40, 42)) == Some(t.hour) && ParseHex(Slice(line, 42, 44)) == Some(t.minute)
    requires ParseHex(Slice(line, 44, 46)) == Some(t.second)
    ensures LoggerTime(line) == Some(t)
  {
  }

  /** A sync frame whose payload starts with year - 2000, month, day, hour,
      minute and second as hex bytes, on a candump line whose payload begins
      at position 34, carries t as its logger time: the sync branch reads the
      month from the low digit of its byte. */
  lemma LoggerTimeOfSyncLine(t0: string, dev: string, id: string, payload: string, w: string, t: DateTime)
    requires |t0| + |dev| + |id| == 31
    requires ValidDateTime(t) && 2000 <= t.year <= 2255 && t.microsecond == 0
    requires HexAt(payload, 0, 2, t.year - 2000) && HexAt(payload, 2, 2, t.month) && HexAt(payload, 4, 2, t.day)
    requires HexAt(payload, 6, 2, t.hour) && HexAt(payload, 8, 2, t.minute) && HexAt(payload, 10, 2, t.second)
    ensures LoggerTime(CandumpLine(t0, dev, id, payload) + w) == Some(t)
  {
    var pre := t0 + " " + dev + " " + id + "#";
    assert CandumpLine(t0, dev, id, payload) + w == pre + payload + w;
    assert |pre| == 34;
    HexAtLowDigit(payload, 2, t.month);
    HexAtShift(pre, payload, w, 0, 2, t.year - 2000);
    HexAtShift(pre, payload, w, 3, 1, t.month);
    HexAtShift(pre, payload, w, 4, 2, t.day);
    HexAtShift(pre, payload, w, 6, 2, t.hour);
    HexAtShift(pre, payload, w, 8, 2, t.minute);
    HexAtShift(pre, payload, w, 10, 2, t.second);
    LoggerTimeOfFields(pre + payload + w, t);
  }

  /** A date frame holding day, month, century and year of the century as hex
      bytes and a time frame holding hour, minute and second decode to t. */
  lemma GpsTimeOfFields(date: string, data: string, t: DateTime)
    requires ValidDateTime(t) && t.microsecond == 0
    requires HexAt(date, 0, 2, t.day) && HexAt(date, 2, 2, t.month)
    requires HexAt(date, 4, 2, t.year / 100) && HexAt(date, 6, 2, t.year % 100)
    requires HexAt(data, 0, 2, t.hour) && HexAt(data, 2, 2, t.minute) && HexAt(data, 4, 2, t.second)
    ensures GpsTime(date, data) == Some(t)
  {
    assert Pow(16, 2) == 256;
    assert ParseHex(Slice(date, 0, 2)) == Some(t.day) by { ParseHexAt(date, 0, 2, t.day); }
    assert ParseHex(Slice(date, 2, 4)) == Some(t.month) by { ParseHexAt(date, 2, 2, t.month); }
    assert ParseHex(Slice(date, 4, 6)) == Some(t.year / 100) by { ParseHexAt(date, 4, 2, t.year / 100); }
    assert ParseHex(Slice(date, 6, 8)) == Some(t.year % 100) by { ParseHexAt(date, 6, 2, t.year % 100); }
    assert ParseHex(Slice(data, 0, 2)) == Some(t.hour) by { ParseHexAt(data, 0, 2, t.hour); }
    assert ParseHex(Slice(data, 2, 4)) == Some(t.minute) by { ParseHexAt(data, 2, 2, t.minute); }
    assert ParseHex(Slice(data, 4, 6)) == Some(t.second) by { ParseHexAt(data, 4, 2, t.second); }
    GpsTimeOfHex(date, data, t);
  }

  /** The GPS branch builds t from fields that read back as t's. */
  lemma GpsTimeOfHex(date: string, data: string, t: DateTime)
    requires ValidDateTime(t) && t.microsecond == 0
    requires ParseHex(Slice(date, 0, 2)) == Some(t.day) && ParseHex(Slice(date, 2, 4)) == Some(t.month)
    requires ParseHex(Slice(date, 4, 6)) == Some(t.year / 100) && ParseHex(Slice(date, 6, 8)) == Some(t.year % 100)
    requires ParseHex(Slice(data, 0, 2)) == Some(t.hour) && ParseHex(Slice(data, 2, 4)) == Some(t.minute)
    requires ParseHex(Slice(data, 4, 6)) == Some(t.second)
    ensures GpsTime(date, data) == Some(t)
  {
  }

  // ---------------------------------------------------------------------------
  // Parsing one line

  /** What one input line amounts to before any state is involved. Parsing
      has no effects, so the loop body is this parse followed by the state
      update below. */
  datatype Parsed =
    | Invalid                     // check(line) is False: reported and skipped
    | Broken(fault: Fault)        // check, getCanDate or int(canIdStr, 16) raised
    | Frame(ts: int,              // recorded time, microseconds
            canId: int,
            node: Option<int>,    // int(nodeIdStr, 16), None when that raises
            data: string,         // payload characters 8..39
            channel: string,      // parts[1]
            frame: string,        // parts[2]
            logger: Option<DateTime>) // the sync frame's date-time, if valid

  function Parse(line: string): (p: Parsed)
    ensures p == Invalid <==> Check(line) == Ok(false)
    ensures p.Broken? && Check(line).Ok? ==> Check(line) == Ok(true) && (GetCanDate(line).Err? || ParseHex(GetCanDate(line).value.canId).None?)
    ensures p.Frame? ==> TimestampPrefix(line) && GetCanDate(line).Ok? && p.ts == TimestampMicros(line)
  {
    match Check(line)
    case Err(e) => Broken(e)
    case Ok(valid) =>
      if !valid then Invalid
      else
        match GetCanDate(line)
        case Err(e) => Broken(e)
        case Ok(cd) =>
          match ParseHex(cd.canId)
          case None => Broken(ValueError)
          case Some(canId) =>
            Frame(cd.ts, canId, ParseHex(cd.nodeId), cd.data, Split(line)[1], Split(line)[2], LoggerTime(line))
  }

  /** A candump line with a checked timestamp field and a hex id parses to
      its fields. */
  lemma ParseCandumpLine(t0: string, dev: string, hex: string, id: nat, payload: string, w: string)
    requires |t0| == 19 && TimestampPrefix(t0)
    requires IsToken(dev) && NoSpace(payload) && '#' !in payload
    requires AllSpace(w)
    requires ParseHex(hex) == Some(id)
    ensures var line := CandumpLine(t0, dev, hex, payload) + w;
      Parse(line) == Frame(TimestampMicros(t0), id, ParseHex(Slice(payload, 0, 2)), Slice(payload, 8, 40),
                           dev, hex + "#" + payload, LoggerTime(line))
  {
    var line := CandumpLine(t0, dev, hex, payload) + w;
    assert NoSpace(hex) && '#' !in hex by {
      forall k | 0 <= k < |hex| ensures !IsSpace(hex[k]) && hex[k] != '#' { assert IsHexDigit(hex[k]); }
    }
    assert TimestampPrefix(line)
        && GetCanDate(line) == Ok(CanDate(TimestampMicros(t0), dev, hex, Slice(payload, 8, 40), Slice(payload, 0, 2))) by {
      GetCanDateOfCandumpLine(t0, dev, hex, payload, w);
    }
    assert Split(line) == [t0, dev, hex + "#" + payload] by {
      CandumpLinePrefix(t0, dev, hex, payload, w);
      CandumpLineFields(t0, dev, hex, payload, w);
    }
    ParseOfFields(line, t0, dev, hex, payload, TimestampMicros(t0), id);
  }

  /** parse of any timestamped line whose fields are known. */
  lemma ParseOfFields(line: string, t0: string, dev: string, hex: string, payload: string, ts: int, id: nat)
    requires TimestampPrefix(line)
    requires GetCanDate(line) == Ok(CanDate(ts, dev, hex, Slice(payload, 8, 40), Slice(payload, 0, 2)))
    requires Split(line) == [t0, dev, hex + "#" + payload]
    requires ParseHex(hex) == Some(id)
    ensures Parse(line) == Frame(ts, id, ParseHex(Slice(payload, 0, 2)), Slice(payload, 8, 40),
                                 dev, hex + "#" + payload, LoggerTime(line))
  {
  }

  // ---------------------------------------------------------------------------
  // The per-line state machine

  datatype OutLine = OutLine(ts: int, channel: string, frame: string)

  /** A closed session: its output file number, the first logger sync time
      (seconds, names the renamed file) and its GPS discrepancy samples. */
  datatype Session = Session(fileNr: nat, firstSync: int, samples: seq<int>)

  /** The clock variables of the loop. Logger times are whole seconds; the
      offset and the samples are microseconds. */
  datatype SyncState = SyncState(
    dateData: Option<string>,   // dataDateStr: the cached UTC date frame data
    tsLogLast: Option<int>,     // ts_log_last
    tsLogFirst: Option<int>,    // ts_log_first
    tsLogDiff: Option<int>,     // ts_log_diff
    diff: Option<int>,          // diff = logger time - recorded time
    mmm: seq<int>)              // GPS discrepancy samples of the session

  /** The output variables: the current newlog_<nr> and whether it is open,
      the lines written (with the number of the file they went to) and the
      sessions closed so far. */
  datatype Output = Output(
    logFileNr: nat,             // log_file_nr
    logOpen: bool,              // new_log is not None
    newCnt: nat,                // new_cnt
    written: seq<(nat, OutLine)>,
    closed: seq<Session>)

  /** The statistics and the numbers of the lines reported as ERROR. */
  datatype Counters = Counters(canIds: map<int, int>, nodeIds: map<int, int>, errors: seq<nat>)

  datatype CorrectorState = CorrectorState(sync: SyncState, out: Output, counts: Counters)

  function Initial(): CorrectorState {
    CorrectorState(SyncState(None, None, None, None, None, []), Output(0, false, 0, [], []), Counters(map[], map[], []))
  }

  /** The first thing each line does: open newlog_<nr+1> when no file is open. */
  function OpenLog(out: Output): Output {
    if out.logOpen then out else out.(logFileNr := out.logFileNr + 1, logOpen := true)
  }

  /** A sync frame: the logger's clock gives the offset, the gap since the
      last sync frame, and the first sync time of the session. */
  function SyncUpdate(sy: SyncState, p: Parsed, clock: DateTime -> int): Result<SyncState>
    requires p.Frame?
  {
    match p.logger
    case None => Err(ValueError)
    case Some(t) =>
      var tsLog := clock(t);
      var last := if sy.tsLogLast.None? then tsLog else sy.tsLogLast.value;
      Ok(sy.(diff := Some(tsLog * 1_000_000 - p.ts),
             tsLogDiff := Some(tsLog - last),
             tsLogLast := Some(tsLog),
             tsLogFirst := if sy.tsLogFirst.None? then Some(tsLog) else sy.tsLogFirst))
  }

  /** A UTC time frame after a UTC date frame: one GPS discrepancy sample. */
  function TimeUpdate(sy: SyncState, p: Parsed, clock: DateTime -> int): Result<SyncState>
    requires p.Frame?
  {
    if sy.dateData.None? then Ok(sy)
    else
      match GpsTime(sy.dateData.value, p.data)
      case None => Err(ValueError)
      case Some(g) =>
        if sy.diff.None? then Err(TypeError)
        else Ok(sy.(mmm := sy.mmm + [p.ts + sy.diff.value - clock(g) * 1_000_000]))
  }

  /** The id-specific part: sync, UTC time and UTC date frames. */
  function Dispatch(sy: SyncState, p: Parsed, clock: DateTime -> int): Result<SyncState>
    requires p.Frame?
  {
    if p.canId == SyncId then SyncUpdate(sy, p, clock)
    else if p.canId == UtcTimeId then TimeUpdate(sy, p, clock)
    else if p.canId == UtcDateId then Ok(sy.(dateData := Some(p.data)))
    else Ok(sy)
  }

  /** Every frame but a sync frame is written as "(ts + diff) iface frame";
      the fields are those of " ".join(line.split()).split(), which are those
      of line.split() (NormaliseSplit). */
  function Emit(sy: SyncState, out: Output, p: Parsed): Result<Output>
    requires p.Frame?
  {
    if p.canId == SyncId then Ok(out)
    else if sy.diff.None? then Err(TypeError)
    else Ok(out.(written := out.written + [(out.logFileNr, OutLine(p.ts + sy.diff.value, p.channel, p.frame))],
                 newCnt := out.newCnt + 1))
  }

  /** A sync gap of more than one second closes the session: the file is
      renamed, the statistics printed (mean and variance raise with fewer than
      two samples), the samples and the first sync time reset. */
  function CloseIfGap(sy: SyncState, out: Output): Result<(SyncState, Output)> {
    if sy.tsLogFirst.None? then Ok((sy, out))
    else if sy.tsLogDiff.None? then Err(TypeError)
    else if sy.tsLogDiff.value <= 1 then Ok((sy, out))
    else if |sy.mmm| < 2 then Err(StatisticsError)
    else Ok((sy.(mmm := [], tsLogFirst := None),
             out.(closed := out.closed + [Session(out.logFileNr, sy.tsLogFirst.value, sy.mmm)], logOpen := false)))
  }

  /** The id and node statistics of a valid line. */
  function Count(c: Counters, p: Parsed): Result<Counters>
    requires p.Frame?
  {
    match p.node
    case None => Err(ValueError)
    case Some(n) => Ok(c.(canIds := Statistics(c.canIds, p.canId), nodeIds := Statistics(c.nodeIds, n)))
  }

  /** What a frame does to the state: its id-specific effect, the output
      line, the session check and the statistics, in that order. */
  function Apply(st: CorrectorState, p: Parsed, clock: DateTime -> int): Result<CorrectorState>
    requires p.Frame?
  {
    match Dispatch(st.sync, p, clock)
    case Err(e) => Err(e)
    case Ok(sy) =>
      match Emit(sy, st.out, p)
      case Err(e) => Err(e)
      case Ok(out) =>
        match CloseIfGap(sy, out)
        case Err(e) => Err(e)
        case Ok(closing) =>
          match Count(st.counts, p)
          case Err(e) => Err(e)
          case Ok(c) => Ok(CorrectorState(closing.0, closing.1, c))
  }

  /** One pass of the loop body for line number cnt, given the parsed line. */
  function StepOn(st: CorrectorState, cnt: nat, p: Parsed, clock: DateTime -> int): Result<CorrectorState> {
    var s1 := st.(out := OpenLog(st.out));
    match p
    case Broken(e) => Err(e)
    case Invalid => Ok(s1.(counts := s1.counts.(errors := s1.counts.errors + [cnt])))
    case Frame(_, _, _, _, _, _, _) => Apply(s1, p, clock)
  }

  /** One pass of the loop body for line number cnt. */
  function Step(st: CorrectorState, cnt: nat, line: string, clock: DateTime -> int): Result<CorrectorState> {
    StepOn(st, cnt, Parse(line), clock)
  }

  /** The loop over parsed lines numbered from cnt: the state after the last
      line processed and the exception that ended it early, if any. */
  function RunOn(st: CorrectorState, ps: seq<Parsed>, cnt: nat, clock: DateTime -> int): (CorrectorState, Option<Fault>)
    decreases |ps|
  {
    if ps == [] then (st, None)
    else
      match StepOn(st, cnt, ps[0], clock)
      case Err(e) => (st, Some(e))
      case Ok(st') => RunOn(st', ps[1..], cnt + 1, clock)
  }

  function ParseAll(lines: seq<string>): (ps: seq<Parsed>)
    ensures |ps| == |lines| && forall i :: 0 <= i < |lines| ==> ps[i] == Parse(lines[i])
  {
    seq(|lines|, i requires 0 <= i < |lines| => Parse(lines[i]))
  }

  /** The loop over the lines of the input log numbered from cnt. */
  function Run(st: CorrectorState, lines: seq<string>, cnt: nat, clock: DateTime -> int): (CorrectorState, Option<Fault>) {
    RunOn(st, ParseAll(lines), cnt, clock)
  }

  /** The loop runs the body on each line in turn and stops at the first exception. */
  lemma RunUnfold(st: CorrectorState, lines: seq<string>, cnt: nat, clock: DateTime -> int)
    requires lines != []
    ensures Run(st, lines, cnt, clock) ==
      match Step(st, cnt, lines[0], clock)
      case Err(e) => (st, Some(e))
      case Ok(st') => Run(st', lines[1..], cnt + 1, clock)
  {
    assert ParseAll(lines)[1..] == ParseAll(lines[1..]);
  }

  /** After the last line: close the file and print the statistics of the
      last session. The file is None after a session closed on the last line
      (AttributeError), ts_log_first None without a sync since (TypeError). */
  function Finish(st: CorrectorState): (r: Result<Session>)
    ensures r.Ok? <==> st.out.logOpen && st.sync.tsLogFirst.Some? && |st.sync.mmm| >= 2
    ensures r.Ok? ==> r.value == Session(st.out.logFileNr, st.sync.tsLogFirst.value, st.sync.mmm)
    ensures !st.out.logOpen ==> r == Err(AttributeError)
    ensures st.out.logOpen && st.sync.tsLogFirst.None? ==> r == Err(TypeError)
  {
    if !st.out.logOpen then Err(AttributeError)
    else if st.sync.tsLogFirst.None? then Err(TypeError)
    else if |st.sync.mmm| < 2 then Err(StatisticsError)
    else Ok(Session(st.out.logFileNr, st.sync.tsLogFirst.value, st.sync.mmm))
  }

  // ---------------------------------------------------------------------------
  // Properties of the loop

  /** A frame other than the three clock frames whose node id is hex. */
  predicate DataFrame(p: Parsed) {
    p.Frame? && p.canId != SyncId && p.canId != UtcTimeId && p.canId != UtcDateId && p.node.Some?
  }

  /** The ids of the frames, in order. */
  function FrameIds(ps: seq<Parsed>): seq<int>
    decreases |ps|
  {
    if ps == [] then []
    else if ps[0].Frame? then [ps[0].canId] + FrameIds(ps[1..])
    else FrameIds(ps[1..])
  }

  /** The node ids of the frames whose node id is hex, in order. */
  function FrameNodes(ps: seq<Parsed>): seq<int>
    decreases |ps|
  {
    if ps == [] then []
    else if ps[0].Frame? && ps[0].node.Some? then [ps[0].node.value] + FrameNodes(ps[1..])
    else FrameNodes(ps[1..])
  }

  /** The numbers of the lines that fail check, counting from cnt. */
  function InvalidLines(ps: seq<Parsed>, cnt: nat): seq<nat>
    decreases |ps|
  {
    if ps == [] then []
    else if ps[0].Invalid? then [cnt] + InvalidLines(ps[1..], cnt + 1)
    else InvalidLines(ps[1..], cnt + 1)
  }

  /** A line that gets through the loop body either is a frame and was
      counted, or failed check and was only reported. */
  lemma StepCounts(st: CorrectorState, cnt: nat, p: Parsed, clock: DateTime -> int)
    requires StepOn(st, cnt, p, clock).Ok?
    ensures var c := StepOn(st, cnt, p, clock).value.counts;
      && (p.Frame? ==>
            && p.node.Some?
            && c == st.counts.(canIds := Statistics(st.counts.canIds, p.canId),
                               nodeIds := Statistics(st.counts.nodeIds, p.node.value)))
      && (!p.Frame? ==> p.Invalid? && c == st.counts.(errors := st.counts.errors + [cnt]))
  {
  }

  /** Over lines processed without an exception, the id and node statistics
      count exactly the frames, and the lines that fail check are reported. */
  lemma {:induction false} RunCounts(st: CorrectorState, ps: seq<Parsed>, cnt: nat, clock: DateTime -> int)
    requires RunOn(st, ps, cnt, clock).1.None?
    ensures var c := RunOn(st, ps, cnt, clock).0.counts;
      && c.canIds == StatisticsOfAll(st.counts.canIds, FrameIds(ps))
      && c.nodeIds == StatisticsOfAll(st.counts.nodeIds, FrameNodes(ps))
      && c.errors == st.counts.errors + InvalidLines(ps, cnt)
    decreases |ps|
  {
    if ps != [] {
      StepCounts(st, cnt, ps[0], clock);
      var st' := StepOn(st, cnt, ps[0], clock).value;
      RunCounts(st', ps[1..], cnt + 1, clock);
    }
  }

  /** Synchronised, with the file open and no session gap pending. */
  predicate Settled(st: CorrectorState) {
    && st.sync.diff.Some?
    && st.out.logOpen
    && (st.sync.tsLogFirst.Some? ==> st.sync.tsLogDiff.Some? && st.sync.tsLogDiff.value <= 1)
  }

  /** The output line of a frame under offset d. */
  function Corrected(p: Parsed, d: int): OutLine
    requires p.Frame?
  {
    OutLine(p.ts + d, p.channel, p.frame)
  }

  /** A data frame in a synchronised session is written to the open file with
      its recorded time plus the offset; only the output and the statistics
      change. */
  lemma DataFrameStep(st: CorrectorState, cnt: nat, p: Parsed, clock: DateTime -> int)
    requires Settled(st) && DataFrame(p)
    ensures StepOn(st, cnt, p, clock).Ok?
    ensures var st' := StepOn(st, cnt, p, clock).value;
      && st'.sync == st.sync
      && st'.out == st.out.(written := st.out.written + [(st.out.logFileNr, Corrected(p, st.sync.diff.value))],
                            newCnt := st.out.newCnt + 1)
  {
    QuietStep(st, cnt, p, clock, st.sync);
  }

  /** A frame other than a sync frame, in a synchronised session, whose
      id-specific effect keeps the offset and the session times: it is
      written, and only its effect and the output change the state. */
  lemma QuietStep(st: CorrectorState, cnt: nat, p: Parsed, clock: DateTime -> int, sy: SyncState)
    requires Settled(st) && p.Frame? && p.canId != SyncId && p.node.Some?
    requires Dispatch(st.sync, p, clock) == Ok(sy)
    requires sy.diff == st.sync.diff && sy.tsLogFirst == st.sync.tsLogFirst && sy.tsLogDiff == st.sync.tsLogDiff
    ensures StepOn(st, cnt, p, clock).Ok?
    ensures var st' := StepOn(st, cnt, p, clock).value;
      && st'.sync == sy
      && st'.out == st.out.(written := st.out.written + [(st.out.logFileNr, Corrected(p, st.sync.diff.value))],
                            newCnt := st.out.newCnt + 1)
  {
  }

  /** The output lines of a sequence of data frames written to file nr under offset d. */
  function Corrections(nr: nat, ps: seq<Parsed>, d: int): (r: seq<(nat, OutLine)>)
    requires forall i :: 0 <= i < |ps| ==> DataFrame(ps[i])
    ensures |r| == |ps|
    decreases |ps|
  {
    if ps == [] then []
    else
      assert forall i :: 0 <= i < |ps[1..]| ==> DataFrame(ps[1..][i]) by {
        forall i | 0 <= i < |ps[1..]| ensures DataFrame(ps[1..][i]) { assert ps[1..][i] == ps[i + 1]; }
      }
      assert DataFrame(ps[0]);
      [(nr, Corrected(ps[0], d))] + Corrections(nr, ps[1..], d)
  }

  /** A run of data frames in a synchronised session writes each of them, in
      order, to the open file, stamped with its recorded time plus the offset
      taken at the last sync frame. */
  lemma {:induction false} RunDataFrames(st: CorrectorState, ps: seq<Parsed>, cnt: nat, clock: DateTime -> int)
    requires Settled(st)
    requires forall i :: 0 <= i < |ps| ==> DataFrame(ps[i])
    ensures RunOn(st, ps, cnt, clock).1 == None
    ensures var st' := RunOn(st, ps, cnt, clock).0;
      && st'.sync == st.sync
      && st'.out == st.out.(written := st.out.written + Corrections(st.out.logFileNr, ps, st.sync.diff.value),
                            newCnt := st.out.newCnt + |ps|)
    decreases |ps|
  {
    if ps != [] {
      DataFrameStep(st, cnt, ps[0], clock);
      var s1 := StepOn(st, cnt, ps[0], clock).value;
      RunDataFrames(s1, ps[1..], cnt + 1, clock);
      var nr, d := st.out.logFileNr, st.sync.diff.value;
      assert st.out.written + Corrections(nr, ps, d)
          == (st.out.written + [(nr, Corrected(ps[0], d))]) + Corrections(nr, ps[1..], d);
    }
  }

  /** A sync frame sets the offset to the logger time minus the recorded time
      and the gap to the time since the previous sync frame; it is not written.
      A gap of more than one second closes the open session, which fails
      unless it holds at least two GPS samples. */
  lemma SyncFrameStep(st: CorrectorState, cnt: nat, p: Parsed, clock: DateTime -> int)
    requires p.Frame? && p.canId == SyncId && p.logger.Some? && p.node.Some?
    ensures var t := clock(p.logger.value);
      var gap := if st.sync.tsLogLast.Some? then t - st.sync.tsLogLast.value else 0;
      var first := if st.sync.tsLogFirst.Some? then st.sync.tsLogFirst.value else t;
      var r := StepOn(st, cnt, p, clock);
      var out := OpenLog(st.out);
      && (r.Ok? <==> gap <= 1 || |st.sync.mmm| >= 2)
      && (r.Ok? ==>
            && r.value.sync.diff == Some(t * 1_000_000 - p.ts)
            && r.value.sync.tsLogLast == Some(t)
            && r.value.sync.tsLogDiff == Some(gap)
            && r.value.sync.dateData == st.sync.dateData)
      && (r.Ok? && gap <= 1 ==>
            && r.value.out == out
            && r.value.sync.tsLogFirst == Some(first) && r.value.sync.mmm == st.sync.mmm)
      && (r.Ok? && gap > 1 ==>
            && r.value.out == out.(closed := out.closed + [Session(out.logFileNr, first, st.sync.mmm)], logOpen := false)
            && r.value.sync.tsLogFirst.None? && r.value.sync.mmm == [])
  {
  }

  /** A sync frame that closes the session at a gap, followed only by data
      frames: they go to a new file whose session has no first sync time, so
      the final close raises TypeError; with nothing after the sync frame no
      file is open and the final close raises AttributeError. */
  lemma {:induction false} GapThenFinish(st: CorrectorState, cnt: nat, p: Parsed, ps: seq<Parsed>, clock: DateTime -> int)
    requires p.Frame? && p.canId == SyncId && p.logger.Some? && p.node.Some?
    requires st.sync.tsLogLast.Some? && clock(p.logger.value) - st.sync.tsLogLast.value > 1
    requires |st.sync.mmm| >= 2
    requires forall i :: 0 <= i < |ps| ==> DataFrame(ps[i])
    ensures RunOn(st, [p] + ps, cnt, clock).1 == None
    ensures Finish(RunOn(st, [p] + ps, cnt, clock).0) == if ps == [] then Err(AttributeError) else Err(TypeError)
  {
    SyncFrameStep(st, cnt, p, clock);
    var s1 := StepOn(st, cnt, p, clock).value;
    assert ([p] + ps)[1..] == ps;
    assert RunOn(st, [p] + ps, cnt, clock) == RunOn(s1, ps, cnt + 1, clock);
    if ps != [] {
      var s1o := s1.(out := OpenLog(s1.out));
      assert StepOn(s1, cnt + 1, ps[0], clock) == StepOn(s1o, cnt + 1, ps[0], clock);
      assert RunOn(s1, ps, cnt + 1, clock) == RunOn(s1o, ps, cnt + 1, clock);
      RunDataFrames(s1o, ps, cnt + 1, clock);
    }
  }

  /** A sync frame whose date is invalid ends the program with ValueError. */
  lemma BadSyncFrame(st: CorrectorState, cnt: nat, p: Parsed, clock: DateTime -> int)
    requires p.Frame? && p.canId == SyncId && p.logger.None?
    ensures StepOn(st, cnt, p, clock) == Err(ValueError)
  {
  }

  /** A data frame before the first sync frame has no offset to add. */
  lemma DataFrameBeforeSync(st: CorrectorState, cnt: nat, p: Parsed, clock: DateTime -> int)
    requires st.sync.diff.None? && DataFrame(p)
    ensures StepOn(st, cnt, p, clock) == Err(TypeError)
  {
  }

  /** In a synchronised session a UTC date frame is written and cached for
      the UTC time frames that follow. */
  lemma DateFrameStep(st: CorrectorState, cnt: nat, p: Parsed, clock: DateTime -> int)
    requires Settled(st) && p.Frame? && p.canId == UtcDateId && p.node.Some?
    ensures StepOn(st, cnt, p, clock).Ok?
    ensures StepOn(st, cnt, p, clock).value.sync == st.sync.(dateData := Some(p.data))
  {
    QuietStep(st, cnt, p, clock, st.sync.(dateData := Some(p.data)));
  }

  /** In a synchronised session a UTC time frame, once a date frame has been
      seen, adds the corrected recorded time minus the GPS time as a sample;
      before any date frame it adds none. */
  lemma TimeFrameSample(st: CorrectorState, cnt: nat, p: Parsed, clock: DateTime -> int)
    requires Settled(st) && p.Frame? && p.canId == UtcTimeId && p.node.Some?
    ensures var date := st.sync.dateData;
      var g := if date.Some? then GpsTime(date.value, p.data) else None;
      var r := StepOn(st, cnt, p, clock);
      && (date.None? ==> r.Ok? && r.value.sync == st.sync)
      && (date.Some? && g.None? ==> r == Err(ValueError))
      && (date.Some? && g.Some? ==>
            r.Ok? && r.value.sync == st.sync.(mmm := st.sync.mmm + [p.ts + st.sync.diff.value - clock(g.value) * 1_000_000]))
  {
    var sy := st.sync;
    if sy.dateData.None? {
      QuietStep(st, cnt, p, clock, sy);
    } else {
      match GpsTime(sy.dateData.value, p.data)
      case None =>
      case Some(g) =>
        var sample := p.ts + sy.diff.value - clock(g) * 1_000_000;
        assert TimeUpdate(sy, p, clock) == Ok(sy.(mmm := sy.mmm + [sample]));
        QuietStep(st, cnt, p, clock, sy.(mmm := sy.mmm + [sample]));
    }
  }

  /** A UTC time frame is written like any data frame. */
  lemma TimeFrameWritten(st: CorrectorState, cnt: nat, p: Parsed, clock: DateTime -> int)
    requires Settled(st) && p.Frame? && p.canId == UtcTimeId
    ensures StepOn(st, cnt, p, clock).Ok? ==>
      StepOn(st, cnt, p, clock).value.out == st.out.(written := st.out.written + [(st.out.logFileNr, Corrected(p, st.sync.diff.value))],
                                                      newCnt := st.out.newCnt + 1)
  {
    var d := Dispatch(st.sync, p, clock);
    if StepOn(st, cnt, p, clock).Ok? {
      assert d.Ok? && p.node.Some?;
      QuietStep(st, cnt, p, clock, d.value);
    }
  }

  /** Output file bookkeeping: lines go to files in non-decreasing order of
      number, never beyond the current number; closed sessions have strictly
      increasing numbers, and while a file is open none of them is its. */
  predicate FilesConsistent(out: Output) {
    && (forall i, j :: 0 <= i < j < |out.written| ==> out.written[i].0 <= out.written[j].0)
    && (forall i :: 0 <= i < |out.written| ==> out.written[i].0 <= out.logFileNr)
    && (forall i, j :: 0 <= i < j < |out.closed| ==> out.closed[i].fileNr < out.closed[j].fileNr)
    && (forall k :: 0 <= k < |out.closed| ==> out.closed[k].fileNr <= out.logFileNr)
    && (out.logOpen ==> forall k :: 0 <= k < |out.closed| ==> out.closed[k].fileNr < out.logFileNr)
  }

  lemma OpenKeepsFiles(out: Output)
    requires FilesConsistent(out)
    ensures var o := OpenLog(out);
      FilesConsistent(o) && o.logOpen && o.written == out.written && o.closed == out.closed
  {
  }

  /** Writing a line goes to the open file. */
  lemma EmitKeepsFiles(sy: SyncState, out: Output, p: Parsed)
    requires FilesConsistent(out) && out.logOpen
    requires p.Frame? && Emit(sy, out, p).Ok?
    ensures var o := Emit(sy, out, p).value;
      && FilesConsistent(o) && o.logOpen && o.logFileNr == out.logFileNr && o.closed == out.closed
      && |out.written| <= |o.written| <= |out.written| + 1 && o.written[..|out.written|] == out.written
      && forall i :: |out.written| <= i < |o.written| ==> o.written[i].0 == out.logFileNr
  {
  }

  /** Closing a session closes the open file. */
  lemma CloseKeepsFiles(sy: SyncState, out: Output)
    requires FilesConsistent(out) && out.logOpen && CloseIfGap(sy, out).Ok?
    ensures var o := CloseIfGap(sy, out).value.1;
      && FilesConsistent(o) && o.logFileNr == out.logFileNr && o.written == out.written
      && |out.closed| <= |o.closed| && o.closed[..|out.closed|] == out.closed
  {
    var o := CloseIfGap(sy, out).value.1;
    if o.closed != out.closed {
      assert o.closed == out.closed + [Session(out.logFileNr, sy.tsLogFirst.value, sy.mmm)];
      assert o.closed[..|out.closed|] == out.closed;
    }
  }

  /** One line keeps the bookkeeping consistent, only appends to the output and
      to the closed sessions, and never writes into a file already closed. */
  lemma StepKeepsFiles(st: CorrectorState, cnt: nat, p: Parsed, clock: DateTime -> int)
    requires FilesConsistent(st.out) && StepOn(st, cnt, p, clock).Ok?
    ensures var out := StepOn(st, cnt, p, clock).value.out;
      && FilesConsistent(out)
      && |st.out.written| <= |out.written| && out.written[..|st.out.written|] == st.out.written
      && |st.out.closed| <= |out.closed| && out.closed[..|st.out.closed|] == st.out.closed
      && forall i, k :: |st.out.written| <= i < |out.written| && 0 <= k < |st.out.closed| ==>
           out.written[i].0 > st.out.closed[k].fileNr
  {
    var o1 := OpenLog(st.out);
    OpenKeepsFiles(st.out);
    if p.Frame? {
      var sy := Dispatch(st.sync, p, clock).value;
      EmitKeepsFiles(sy, o1, p);
      var o2 := Emit(sy, o1, p).value;
      CloseKeepsFiles(sy, o2);
      var o3 := CloseIfGap(sy, o2).value.1;
      assert StepOn(st, cnt, p, clock).value.out == o3;
      assert o3.written[..|st.out.written|] == st.out.written by {
        assert o3.written[..|st.out.written|] == o2.written[..|o1.written|];
      }
      assert o3.closed[..|st.out.closed|] == st.out.closed by {
        assert o3.closed[..|st.out.closed|] == o3.closed[..|o2.closed|];
      }
    }
  }

  /** Any number of lines keeps the bookkeeping consistent. */
  lemma {:induction false} RunKeepsFiles(st: CorrectorState, ps: seq<Parsed>, cnt: nat, clock: DateTime -> int)
    requires FilesConsistent(st.out)
    ensures FilesConsistent(RunOn(st, ps, cnt, clock).0.out)
    decreases |ps|
  {
    if ps != [] && StepOn(st, cnt, ps[0], clock).Ok? {
      StepKeepsFiles(st, cnt, ps[0], clock);
      RunKeepsFiles(StepOn(st, cnt, ps[0], clock).value, ps[1..], cnt + 1, clock);
    }
  }

  // ---------------------------------------------------------------------------
  // The script's loop variables, updated in place

  /** The corrector's variables as the script keeps them, updated in place
      line by line. */
  class TimestampCorrector {
    var canIds: map<int, int>
    var nodeIds: map<int, int>
    var errors: seq<nat>
    var dateData: Option<string>
    var tsLogLast: Option<int>
    var tsLogFirst: Option<int>
    var tsLogDiff: Option<int>
    var diff: Option<int>
    var mmm: seq<int>
    var logFileNr: nat
    var logOpen: bool
    var newCnt: nat
    var written: seq<(nat, OutLine)>
    var closed: seq<Session>

    function State(): CorrectorState
      reads this
    {
      CorrectorState(SyncState(dateData, tsLogLast, tsLogFirst, tsLogDiff, diff, mmm),
                     Output(logFileNr, logOpen, newCnt, written, closed),
                     Counters(canIds, nodeIds, errors))
    }

    constructor ()
      ensures State() == Initial()
    {
      canIds, nodeIds, errors := map[], map[], [];
      dateData, tsLogLast, tsLogFirst, tsLogDiff, diff, mmm := None, None, None, None, None, [];
      logFileNr, logOpen, newCnt, written, closed := 0, false, 0, [], [];
    }

    /** The time sync branch of the loop body. */
    method HandleSync(p: Parsed, clock: DateTime -> int) returns (fault: Option<Fault>)
      requires p.Frame?
      modifies this
      ensures fault.None? <==> SyncUpdate(old(State()).sync, p, clock).Ok?
      ensures fault.None? ==> State() == old(State()).(sync := SyncUpdate(old(State()).sync, p, clock).value)
      ensures fault.Some? ==> SyncUpdate(old(State()).sync, p, clock) == Err(fault.value)
    {
      if p.logger.None? {
        return Some(ValueError);
      }
      var tsLog := clock(p.logger.value);
      diff := Some(tsLog * 1_000_000 - p.ts);
      if tsLogLast.None? {
        tsLogLast := Some(tsLog);
      }
      tsLogDiff := Some(tsLog - tsLogLast.value);
      tsLogLast := Some(tsLog);
      if tsLogFirst.None? {
        tsLogFirst := Some(tsLog);
      }
      return None;
    }

    /** The UTC time branch of the loop body. */
    method HandleTime(p: Parsed, clock: DateTime -> int) returns (fault: Option<Fault>)
      requires p.Frame?
      modifies this
      ensures fault.None? <==> TimeUpdate(old(State()).sync, p, clock).Ok?
      ensures fault.None? ==> State() == old(State()).(sync := TimeUpdate(old(State()).sync, p, clock).value)
      ensures fault.Some? ==> TimeUpdate(old(State()).sync, p, clock) == Err(fault.value)
    {
      if dateData.Some? {
        var g := GpsTime(dateData.value, p.data);
        if g.None? {
          return Some(ValueError);
        }
        if diff.None? {
          return Some(TypeError);
        }
        mmm := mmm + [p.ts + diff.value - clock(g.value) * 1_000_000];
      }
      return None;
    }

    /** The if/elif chain on the frame id: sync, UTC time and UTC date frames. */
    method HandleClockFrame(p: Parsed, clock: DateTime -> int) returns (fault: Option<Fault>)
      requires p.Frame?
      modifies this
      ensures fault.None? <==> Dispatch(old(State()).sync, p, clock).Ok?
      ensures fault.None? ==> State() == old(State()).(sync := Dispatch(old(State()).sync, p, clock).value)
      ensures fault.Some? ==> Dispatch(old(State()).sync, p, clock) == Err(fault.value)
    {
      fault := None;
      if p.canId == SyncId {
        fault := HandleSync(p, clock);
      } else if p.canId == UtcTimeId {
        fault := HandleTime(p, clock);
      } else if p.canId == UtcDateId {
        dateData := Some(p.data);
      }
    }

    /** Every frame but a sync frame is written with the offset added. */
    method WriteFrame(p: Parsed) returns (fault: Option<Fault>)
      requires p.Frame?
      modifies this
      ensures fault.None? <==> Emit(old(State()).sync, old(State()).out, p).Ok?
      ensures fault.None? ==> State() == old(State()).(out := Emit(old(State()).sync, old(State()).out, p).value)
      ensures fault.Some? ==> Emit(old(State()).sync, old(State()).out, p) == Err(fault.value)
    {
      if p.canId != SyncId {
        if diff.None? {
          return Some(TypeError);
        }
        written := written + [(logFileNr, OutLine(p.ts + diff.value, p.channel, p.frame))];
        newCnt := newCnt + 1;
      }
      return None;
    }

    /** Close the session after a sync gap of more than one second. */
    method CloseOnGap() returns (fault: Option<Fault>)
      modifies this
      ensures fault.None? <==> CloseIfGap(old(State()).sync, old(State()).out).Ok?
      ensures fault.None? ==>
        State() == old(State()).(sync := CloseIfGap(old(State()).sync, old(State()).out).value.0,
                                 out := CloseIfGap(old(State()).sync, old(State()).out).value.1)
      ensures fault.Some? ==> CloseIfGap(old(State()).sync, old(State()).out) == Err(fault.value)
    {
      if tsLogFirst.Some? {
        if tsLogDiff.None? {
          return Some(TypeError);
        }
        if tsLogDiff.value > 1 {
          if |mmm| < 2 {
            return Some(StatisticsError);
          }
          closed := closed + [Session(logFileNr, tsLogFirst.value, mmm)];
          mmm := [];
          logOpen := false;
          tsLogFirst := None;
        }
      }
      return None;
    }

    /** statistics(canIds, canId); statistics(nodeIds, int(nodeIdStr, 16)). */
    method CountFrame(p: Parsed) returns (fault: Option<Fault>)
      requires p.Frame?
      modifies this
      ensures fault.None? <==> Count(old(State()).counts, p).Ok?
      ensures fault.None? ==> State() == old(State()).(counts := Count(old(State()).counts, p).value)
      ensures fault.Some? ==> Count(old(State()).counts, p) == Err(fault.value)
    {
      canIds := Statistics(canIds, p.canId);
      if p.node.None? {
        return Some(ValueError);
      }
      nodeIds := Statistics(nodeIds, p.node.value);
      return None;
    }

    /** A new output file is opened when none is. */
    method OpenLogFile()
      modifies this
      ensures State() == old(State()).(out := OpenLog(old(State()).out))
    {
      if !logOpen {
        logFileNr := logFileNr + 1;
        logOpen := true;
      }
    }

    /** A line that fails check is reported by its number. */
    method ReportLine(cnt: nat)
      modifies this
      ensures State() == old(State()).(counts := old(State()).counts.(errors := old(State()).counts.errors + [cnt]))
    {
      errors := errors + [cnt];
    }

    /** The loop body for a checked line: the id chain, writing the line, the
        session check and the statistics, stopping at the first exception. */
    method ApplyFrame(p: Parsed, clock: DateTime -> int) returns (fault: Option<Fault>)
      requires p.Frame?
      modifies this
      ensures fault.None? <==> Apply(old(State()), p, clock).Ok?
      ensures fault.None? ==> State() == Apply(old(State()), p, clock).value
      ensures fault.Some? ==> Apply(old(State()), p, clock) == Err(fault.value)
    {
      ghost var s0 := State();
      fault := HandleClockFrame(p, clock);
      if fault.Some? {
        return;
      }
      ghost var sy := Dispatch(s0.sync, p, clock).value;
      fault := WriteFrame(p);
      if fault.Some? {
        return;
      }
      ghost var out := Emit(sy, s0.out, p).value;
      fault := CloseOnGap();
      if fault.Some? {
        return;
      }
      assert counts: State().counts == s0.counts;
      fault := CountFrame(p);
    }

    /** The loop body for a parsed line. When it raises, the fault is
        returned and the variables are left as far as the line got. */
    method ProcessParsed(cnt: nat, p: Parsed, clock: DateTime -> int) returns (fault: Option<Fault>)
      modifies this
      ensures fault.None? <==> StepOn(old(State()), cnt, p, clock).Ok?
      ensures fault.None? ==> State() == StepOn(old(State()), cnt, p, clock).value
      ensures fault.Some? ==> StepOn(old(State()), cnt, p, clock) == Err(fault.value)
    {
      OpenLogFile();
      if p.Broken? {
        return Some(p.fault);
      }
      if p.Invalid? {
        ReportLine(cnt);
        return None;
      }
      fault := ApplyFrame(p, clock);
    }

    /** The loop body for line number cnt. */
    method ProcessLine(cnt: nat, line: string, clock: DateTime -> int) returns (fault: Option<Fault>)
      modifies this
      ensures fault.None? <==> Step(old(State()), cnt, line, clock).Ok?
      ensures fault.None? ==> State() == Step(old(State()), cnt, line, clock).value
      ensures fault.Some? ==> Step(old(State()), cnt, line, clock) == Err(fault.value)
    {
      fault := ProcessParsed(cnt, Parse(line), clock);
    }

    /** The loop over the input log's lines, numbered from 0. */
    method Correct(lines: seq<string>, clock: DateTime -> int) returns (fault: Option<Fault>)
      modifies this
      ensures fault == Run(old(State()), lines, 0, clock).1
      ensures fault.None? ==> State() == Run(old(State()), lines, 0, clock).0
    {
      var i := 0;
      while i < |lines|
        invariant 0 <= i <= |lines|
        invariant Run(old(State()), lines, 0, clock) == RunOn(State(), ParseAll(lines)[i..], i, clock)
      {
        ghost var before := State();
        assert ParseAll(lines)[i..][0] == Parse(lines[i]);
        assert ParseAll(lines)[i..][1..] == ParseAll(lines)[i + 1..];
        var f := ProcessLine(i, lines[i], clock);
        if f.Some? {
          return f;
        }
        i := i + 1;
      }
      return None;
    }
  }

  // ---------------------------------------------------------------------------
  // sync_with_gps(log_file_name, diff)

  /** The line format the corrector writes: "({:f}) {} {}\n". */
  function FormatOutLine(o: OutLine): string {
    "(" + FormatMicros(o.ts) + ") " + o.channel + " " + o.frame + "\n"
  }

  /** A corrected line read back: exactly three fields (else the unpacking
      raises ValueError), the first a timestamp between two brackets. */
  function ReadOutLine(line: string): (r: Result<OutLine>)
    ensures r.Ok? ==> IsToken(r.value.channel) && IsToken(r.value.frame)
    ensures r.Err? ==> r.fault == ValueError
  {
    var parts := Split(line);
    if |parts| != 3 then Err(ValueError)
    else
      var tok := parts[0];
      match ParseMicros(Slice(tok, 1, |tok| - 1))
      case None => Err(ValueError)
      case Some(t) => Ok(OutLine(t, parts[1], parts[2]))
  }

  /** Digits, a point and digits contain no blank. */
  lemma DigitsPointNoSpace(a: string, b: string)
    requires AllDigitsOf(a, 16) && AllDigitsOf(b, 16)
    ensures NoSpace(a + "." + b)
  {
    var s := a + "." + b;
    forall k | 0 <= k < |s| ensures !IsSpace(s[k]) {
      if k < |a| { assert s[k] == a[k]; }
      else if k > |a| { assert s[k] == b[k - |a| - 1]; }
    }
  }

  /** A formatted timestamp contains no blank, so it stays inside its field. */
  lemma FormattedNoSpace(t: int)
    ensures NoSpace(FormatMicros(t))
  {
    var u := if t < 0 then -t else t;
    var s := FormatUnsignedMicros(u);
    assert NoSpace(s) by {
      FormatUnsignedParts(u);
      DigitsPointNoSpace(DecimalString(u / 1_000_000), Numeral(u % 1_000_000, 10, 6));
    }
    if t < 0 {
      forall k | 0 <= k < |"-" + s| ensures !IsSpace(("-" + s)[k]) {
        if k > 0 { assert ("-" + s)[k] == s[k - 1]; }
      }
    }
  }

  /** Reading back a line in the corrector's output format gives the line. */
  lemma ReadFormattedOutLine(o: OutLine)
    requires IsToken(o.channel) && IsToken(o.frame)
    ensures ReadOutLine(FormatOutLine(o)) == Ok(o)
  {
    var f := FormatMicros(o.ts);
    var t0 := "(" + f + ")";
    assert IsToken(t0) by {
      FormattedNoSpace(o.ts);
      forall k | 0 <= k < |t0| ensures !IsSpace(t0[k]) {
        if 0 < k < |t0| - 1 { assert t0[k] == f[k - 1]; }
      }
    }
    assert Split(FormatOutLine(o)) == [t0, o.channel, o.frame] by {
      assert AllSpace("\n");
      assert FormatOutLine(o) == t0 + " " + o.channel + " " + o.frame + "\n";
      SplitThree(t0, o.channel, o.frame, "\n");
    }
    assert ParseMicros(Slice(t0, 1, |t0| - 1)) == Some(o.ts) by {
      assert Slice(t0, 1, |t0| - 1) == f;
      ParseFormatted(o.ts);
    }
    ReadOutLineOfFields(FormatOutLine(o), t0, o.channel, o.frame, o.ts);
  }

  /** A line whose three fields are known, the first a bracketed timestamp. */
  lemma ReadOutLineOfFields(line: string, t0: string, channel: string, frame: string, t: int)
    requires Split(line) == [t0, channel, frame] && 1 <= |t0|
    requires ParseMicros(Slice(t0, 1, |t0| - 1)) == Some(t)
    ensures ReadOutLine(line) == Ok(OutLine(t, channel, frame))
  {
  }

  function Shifted(o: OutLine, shift: int): OutLine {
    o.(ts := o.ts - shift)
  }

  /** sync_with_gps: the name with ".log" replaced by "-gps.log", and every
      line of the corrected log written again, in the same format
      (FormatOutLine), with its timestamp minus the GPS offset. The first line
      that is not in the output format ends it with ValueError; the lines
      before it have been written. */
  method SyncWithGps(logFileName: string, lines: seq<string>, shift: int) returns (gpsFileName: string, out: seq<OutLine>, fault: Option<Fault>)
    ensures gpsFileName == ReplaceAll(logFileName, ".log", "-gps.log")
    ensures |out| <= |lines|
    ensures forall i :: 0 <= i < |out| ==> ReadOutLine(lines[i]).Ok? && out[i] == Shifted(ReadOutLine(lines[i]).value, shift)
    ensures fault.None? <==> forall i :: 0 <= i < |lines| ==> ReadOutLine(lines[i]).Ok?
    ensures fault.None? ==> |out| == |lines|
    ensures fault.Some? ==> |out| < |lines| && ReadOutLine(lines[|out|]) == Err(fault.value)
  {
    gpsFileName := ReplaceAll(logFileName, ".log", "-gps.log");
    out, fault := ShiftLines(lines, shift);
  }

  /** The rewriting loop of sync_with_gps: every line read back and shifted,
      in order, up to the first line that does not read. */
  method ShiftLines(lines: seq<string>, shift: int) returns (out: seq<OutLine>, fault: Option<Fault>)
    ensures |out| <= |lines|
    ensures forall i :: 0 <= i < |out| ==> ReadOutLine(lines[i]).Ok? && out[i] == Shifted(ReadOutLine(lines[i]).value, shift)
    ensures fault.None? <==> forall i :: 0 <= i < |lines| ==> ReadOutLine(lines[i]).Ok?
    ensures fault.None? ==> |out| == |lines|
    ensures fault.Some? ==> |out| < |lines| && ReadOutLine(lines[|out|]) == Err(fault.value)
  {
    out := [];
    fault := None;
    var i := 0;
    while i < |lines|
      invariant 0 <= i <= |lines| && |out| == i
      invariant forall k :: 0 <= k < i ==> ReadOutLine(lines[k]).Ok? && out[k] == Shifted(ReadOutLine(lines[k]).value, shift)
    {
      var r := ReadOutLine(lines[i]);
      if r.Err? {
        fault := Some(r.fault);
        break;
      }
      ghost var before := out;
      out := out + [Shifted(r.value, shift)];
      assert forall k :: 0 <= k < i ==> out[k] == before[k];
      i := i + 1;
    }
  }

  /** A renamed log "<stem>.log" whose stem has no '.' gets the GPS-corrected
      name "<stem>-gps.log". */
  lemma GpsFileName(stem: string)
    requires '.' !in stem
    ensures ReplaceAll(stem + ".log", ".log", "-gps.log") == stem + "-gps.log"
  {
    OnlySuffixOccurrence(stem, ".log");
    ReplaceSuffix(stem, ".log", "-gps.log");
  }
}
