/** The Kivy video player's bookkeeping: the current position and duration,
    the sorted bookmark list (whole seconds of video), and the sync points,
    an insertion-ordered dictionary from a video second to the epoch time it
    shows. The buttons jump between bookmarks, add one, or add a sync point;
    playing and pausing resume and stop the CAN sender at the time mapped from
    the first sync point. Positions and times are floats in the program and
    reals here; the widgets, the drawing and the sender are left out, and what
    the handlers ask of them is returned as a value. */
module Videoplayer {
  import opened Outcomes
  import opened VideoAndCanPlayer

  // ---------------------------------------------------------------------------
  // Python's int(x) and round(x) on floats

  /** int(x): truncation toward zero. */
  function Trunc(x: real): (r: int)
    ensures x >= 0.0 ==> r as real <= x < r as real + 1.0
    ensures x < 0.0 ==> r as real - 1.0 < x <= r as real
  {
    if x >= 0.0 then x.Floor else -((-x).Floor)
  }

  /** round(x): the nearest integer, ties to the even one. */
  function RoundHalfEven(x: real): (r: int)
    ensures -0.5 <= x - r as real <= 0.5
    ensures (x - r as real == 0.5 || x - r as real == -0.5) ==> r % 2 == 0
  {
    var f := x.Floor;
    var d := x - f as real;
    if d < 0.5 then f
    else if d > 0.5 then f + 1
    else if f % 2 == 0 then f
    else f + 1
  }

  /** The position btn_next looks from: five seconds ahead. */
  function NextProbe(position: real): real {
    position + 5.0
  }

  /** A bookmark as the float inbetween returns. */
  function AsFloat(b: Option<int>): (r: Option<real>)
    ensures r.Some? <==> b.Some?
    ensures r.Some? ==> r.value == b.value as real
  {
    if b.Some? then Some(b.value as real) else None
  }

  // ---------------------------------------------------------------------------
  // video_position2time(vpos, syncpoints)

  /** The local time zone's offset from UTC at an epoch time, in seconds, as
      datetime.fromtimestamp(t) - datetime.utcfromtimestamp(t) gives it. */
  type LocalOffset = real -> int

  /** timedelta.seconds of an offset: the seconds part after whole days are
      split off, always in [0, 86400). */
  function OffsetSeconds(offset: int): (s: int)
    ensures 0 <= s < 86400
    ensures 0 <= offset < 86400 ==> s == offset
    ensures -86400 <= offset < 0 ==> s == offset + 86400
  {
    offset % 86400
  }

  /** video_position2time: the first sync point's time moved by the distance
      from its second to vpos, minus the seconds part of the local UTC offset.
      StopIteration without sync points. */
  function PositionToTime(vpos: real, sps: seq<SyncPoint>, localOffset: LocalOffset): (r: Result<real>)
    ensures r.Err? <==> sps == []
    ensures r.Err? ==> r.fault == StopIteration
    ensures r.Ok? ==> r.value + OffsetSeconds(localOffset(sps[0].1)) as real - sps[0].1
                      == vpos - sps[0].0 as real
  {
    if sps == [] then Err(StopIteration)
    else
      var (fsp, t1) := sps[0];
      Ok((t1 - (fsp as real - vpos)) - OffsetSeconds(localOffset(t1)) as real)
  }

  /** At the first sync point's second, the time east of UTC is its epoch
      time shifted by the local offset; west of UTC a whole day less. */
  lemma PositionToTimeAtSyncpoint(sps: seq<SyncPoint>, localOffset: LocalOffset)
    requires sps != []
    ensures var off := localOffset(sps[0].1);
            0 <= off < 86400 ==>
              PositionToTime(sps[0].0 as real, sps, localOffset) == Ok(sps[0].1 - off as real)
    ensures var off := localOffset(sps[0].1);
            -86400 <= off < 0 ==>
              PositionToTime(sps[0].0 as real, sps, localOffset)
              == Ok(sps[0].1 - off as real - 86400.0)
  {
  }

  // ---------------------------------------------------------------------------
  // Handlers

  /** What on_state asks of the CAN sender. */
  datatype Command = Resume(time: real) | Stop | NoCommand

  /** A seek request of the previous and next buttons: the fraction of the
      duration to seek to, None when the bookmark is missing or is 0 (Python
      treats 0.0 as false). ZeroDivisionError for a zero duration. */
  function Seek(target: Option<real>, duration: real): (r: Result<Option<real>>)
    ensures r == Ok(None) <==> target.None? || target.value == 0.0
    ensures r.Err? <==> target.Some? && target.value != 0.0 && duration == 0.0
    ensures r.Err? ==> r.fault == ZeroDivisionError
  {
    if target.None? || target.value == 0.0 then Ok(None)
    else if duration == 0.0 then Err(ZeroDivisionError)
    else Ok(Some(target.value / duration))
  }

  /** A seek fraction times the duration is the bookmark sought. */
  lemma SeekFraction(target: Option<real>, duration: real)
    ensures var r := Seek(target, duration);
            r.Ok? && r.value.Some? ==> r.value.value * duration == target.value
  {
  }

  /** The previous button seeks to a non-zero bookmark at or before the
      rounded position, as a fraction of the duration. */
  lemma PreviousTarget(bookmarks: seq<int>, v: int, duration: real)
    requires bookmarks != []
    ensures var seek := Seek(AsFloat(Bracketing(Some(bookmarks), v).value.prev), duration);
            seek.Ok? && seek.value.Some? ==>
              exists b :: b in bookmarks && b != 0 && b <= v && seek.value.value * duration == b as real
  {
  }

  /** The next button seeks to a non-zero bookmark after the rounded
      position, as a fraction of the duration. */
  lemma NextTarget(bookmarks: seq<int>, v: int, duration: real)
    requires bookmarks != []
    ensures var seek := Seek(AsFloat(Bracketing(Some(bookmarks), v).value.next), duration);
            seek.Ok? && seek.value.Some? ==>
              exists b :: b in bookmarks && b != 0 && v < b && seek.value.value * duration == b as real
  {
  }

  class VideoplayerApp {
    var syncpoints: seq<SyncPoint>
    var bookmarks: seq<int>
    var curPosition: real
    var curDuration: Option<real>
    /** Whether a CAN sender was passed in (the default is None). */
    const hasCansender: bool

    constructor (syncpoints: seq<SyncPoint>, bookmarks: seq<int>, hasCansender: bool)
      ensures this.syncpoints == syncpoints && this.bookmarks == bookmarks
      ensures this.hasCansender == hasCansender
      ensures curPosition == 0.0 && curDuration == None
    {
      this.syncpoints := syncpoints;
      this.bookmarks := bookmarks;
      this.hasCansender := hasCansender;
      curPosition := 0.0;
      curDuration := None;
    }

    /** on_state: 'play' resumes the sender at the time of the current
        position, 'pause' stops it, any other state does nothing. Without a
        sender both raise AttributeError. */
    method OnState(state: string, localOffset: LocalOffset) returns (cmd: Result<Command>)
      ensures state == "play" && !hasCansender ==> cmd == Err(AttributeError)
      ensures state == "play" && hasCansender ==>
                match PositionToTime(curPosition, syncpoints, localOffset)
                case Ok(t) => cmd == Ok(Resume(t))
                case Err(f) => cmd == Err(f)
      ensures state == "pause" ==> cmd == if hasCansender then Ok(Stop) else Err(AttributeError)
      ensures state != "play" && state != "pause" ==> cmd == Ok(NoCommand)
    {
      if state == "play" {
        if !hasCansender {
          return Err(AttributeError);
        }
        var t := PositionToTime(curPosition, syncpoints, localOffset);
        if t.Err? {
          return Err(t.fault);
        }
        return Ok(Resume(t.value));
      } else if state == "pause" {
        if !hasCansender {
          return Err(AttributeError);
        }
        return Ok(Stop);
      }
      return Ok(NoCommand);
    }

    /** on_position: the duration is taken once, the first time it exceeds one
        second; the position always follows. */
    method OnPosition(position: real, duration: real)
      modifies this
      ensures curPosition == position
      ensures curDuration == if old(curDuration).None? && duration > 1.0 then Some(duration)
                             else old(curDuration)
      ensures old(curDuration).Some? ==> curDuration == old(curDuration)
      ensures syncpoints == old(syncpoints) && bookmarks == old(bookmarks)
    {
      if curDuration.None? && duration > 1.0 {
        curDuration := Some(duration);
      }
      curPosition := position;
    }

    /** inbetween(list, val): the bookmarks around val rounded half to even,
        as floats. */
    static method InBetween(list: Option<seq<int>>, val: real) returns (r: Result<(Option<real>, Option<real>)>)
      ensures r.Err? <==> list == Some([])
      ensures r.Err? ==> r.fault == IndexError
      ensures r.Ok? ==> r.value.0 == AsFloat(Bracketing(list, RoundHalfEven(val)).value.prev)
      ensures r.Ok? ==> r.value.1 == AsFloat(Bracketing(list, RoundHalfEven(val)).value.next)
    {
      var v := RoundHalfEven(val);
      var b := VideoAndCanPlayer.InBetween(list, v);
      if b.Err? {
        return Err(b.fault);
      }
      return Ok((AsFloat(b.value.prev), AsFloat(b.value.next)));
    }

    /** btn_previous: seeks to the bookmark before the current position, if
        there is one other than 0. */
    method BtnPrevious(duration: real) returns (seek: Result<Option<real>>)
      ensures bookmarks == [] ==> seek == Err(IndexError)
      ensures bookmarks != [] ==>
                seek == Seek(AsFloat(Bracketing(Some(bookmarks), RoundHalfEven(curPosition)).value.prev), duration)
    {
      var vp := curPosition;
      var r := InBetween(Some(bookmarks), vp);
      if r.Err? {
        return Err(r.fault);
      }
      seek := Seek(r.value.0, duration);
    }

    /** btn_next: seeks to the bookmark after the current position plus five
        seconds, if there is one other than 0. */
    method BtnNext(duration: real) returns (seek: Result<Option<real>>)
      ensures bookmarks == [] ==> seek == Err(IndexError)
      ensures bookmarks != [] ==>
                seek == Seek(AsFloat(Bracketing(Some(bookmarks), RoundHalfEven(NextProbe(curPosition))).value.next), duration)
    {
      var vp := NextProbe(curPosition);
      var r := InBetween(Some(bookmarks), vp);
      if r.Err? {
        return Err(r.fault);
      }
      seek := Seek(r.value.1, duration);
    }

    /** btn_bookmark: for a video longer than 100 seconds, the current second
        (truncated) joins the sorted bookmarks; shorter videos are left alone. */
    method BtnBookmark(duration: real)
      modifies this
      ensures duration > 100.0 ==> bookmarks == AddBookmark(old(bookmarks), Trunc(old(curPosition)))
      ensures duration > 100.0 ==> Sorted(bookmarks)
                                   && multiset(bookmarks) == multiset(old(bookmarks)) + multiset{Trunc(old(curPosition))}
      ensures duration <= 100.0 ==> bookmarks == old(bookmarks)
      ensures syncpoints == old(syncpoints) && curPosition == old(curPosition)
      ensures curDuration == old(curDuration)
    {
      if duration > 100.0 {
        bookmarks := AddBookmark(bookmarks, Trunc(curPosition));
      }
    }
  }

  // ---------------------------------------------------------------------------
  // The sync-point dialog

  class ModalDialog {
    const videoplayer: VideoplayerApp
    /** The entered UTC time in epoch seconds, once one was accepted. */
    var ts: Option<real>

    constructor (videoplayer: VideoplayerApp)
      ensures this.videoplayer == videoplayer && ts == None
    {
      this.videoplayer := videoplayer;
      ts := None;
    }

    /** checkTime(sp), given what strptime and total_seconds make of sp (None
        when strptime raises): an accepted time is stored and returned; a
        rejected one returns None and keeps the time stored before. */
    method CheckTime(seconds: Option<real>) returns (r: Option<real>)
      modifies this
      ensures r == seconds
      ensures ts == if seconds.Some? then seconds else old(ts)
    {
      if seconds.Some? {
        ts := seconds;
        return ts;
      }
      return None;
    }

    /** set_syncpoint: int(ts) joins the sorted bookmarks and ts is stored
        under the current second (rounded half to even), replacing an earlier
        time for that second. TypeError, with nothing changed, while no time
        was accepted. */
    method SetSyncpoint() returns (fault: Option<Fault>)
      modifies videoplayer
      ensures ts.None? ==> fault == Some(TypeError)
      ensures ts.None? ==> videoplayer.bookmarks == old(videoplayer.bookmarks)
                           && videoplayer.syncpoints == old(videoplayer.syncpoints)
      ensures ts.Some? ==> fault == None
      ensures ts.Some? ==> videoplayer.bookmarks == AddBookmark(old(videoplayer.bookmarks), Trunc(ts.value))
      ensures ts.Some? ==>
                videoplayer.syncpoints
                == Store(old(videoplayer.syncpoints), RoundHalfEven(videoplayer.curPosition), ts.value)
      ensures videoplayer.curPosition == old(videoplayer.curPosition)
      ensures videoplayer.curDuration == old(videoplayer.curDuration)
    {
      if ts.None? {
        return Some(TypeError);
      }
      videoplayer.bookmarks := AddBookmark(videoplayer.bookmarks, Trunc(ts.value));
      var key := RoundHalfEven(videoplayer.curPosition);
      videoplayer.syncpoints := Store(videoplayer.syncpoints, key, ts.value);
      return None;
    }
  }

  /** After a sync point is set, the current second maps to the accepted time
      and the other seconds keep theirs; the first sync point, which anchors
      the time mapping, changes only if it is the one replaced. */
  lemma SyncpointStored(sps: seq<SyncPoint>, pos: real, ts: real, other: int)
    requires UniqueFrames(sps)
    ensures Lookup(Store(sps, RoundHalfEven(pos), ts), RoundHalfEven(pos)) == Some(ts)
    ensures other != RoundHalfEven(pos) ==>
              Lookup(Store(sps, RoundHalfEven(pos), ts), other) == Lookup(sps, other)
    ensures UniqueFrames(Store(sps, RoundHalfEven(pos), ts))
    ensures sps != [] && sps[0].0 != RoundHalfEven(pos) ==> Store(sps, RoundHalfEven(pos), ts)[0] == sps[0]
  {
    StoreLookup(sps, RoundHalfEven(pos), ts, other);
  }
}
