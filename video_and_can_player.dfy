/** The bookmark and sync-point bookkeeping of the video and CAN replayer.
    Bookmarks are video frame numbers kept in a sorted list; inbetween finds the
    bookmarks either side of a frame with half-open ranges. Sync points tie a
    frame to an epoch time (seconds); in insertion order they give the frame
    rates (calcfps) and, from the first of them, the linear map from frames to
    times (frame2time). Times and rates are floats in the program and reals
    here. */
module VideoAndCanPlayer {
  import opened Outcomes

  // ---------------------------------------------------------------------------
  // inbetween(list, val)

  /** The bookmarks either side of a value; None where there is none. */
  datatype Bracket = Bracket(prev: Option<int>, next: Option<int>)

  /** The first i at or after `from` whose half-open range [s[i], s[i+1])
      holds val, the range test of inbetween. */
  function FirstRange(s: seq<int>, val: int, from: nat): (k: Option<nat>)
    ensures k.Some? ==> from <= k.value && k.value + 1 < |s|
                        && s[k.value] <= val < s[k.value + 1]
    ensures k.Some? ==> forall j :: from <= j < k.value ==> !(s[j] <= val < s[j + 1])
    ensures k.None? ==> forall j :: from <= j && j + 1 < |s| ==> !(s[j] <= val < s[j + 1])
    decreases |s| - from
  {
    if from + 1 >= |s| then None
    else if s[from] <= val < s[from + 1] then Some(from)
    else FirstRange(s, val, from + 1)
  }

  /** What inbetween(list, val) returns: (None, None) for a None list, an
      IndexError for an empty one; otherwise the first range holding val, and
      failing that the first bookmark when val is below it and the last one
      when val is above it. */
  function Bracketing(list: Option<seq<int>>, val: int): (r: Result<Bracket>)
    ensures r.Err? <==> list == Some([])
    ensures r.Err? ==> r.fault == IndexError
    ensures list.None? ==> r == Ok(Bracket(None, None))
    ensures r.Ok? && r.value.prev.Some? ==> r.value.prev.value <= val && r.value.prev.value in list.value
    ensures r.Ok? && r.value.next.Some? ==> val < r.value.next.value && r.value.next.value in list.value
  {
    match list
    case None => Ok(Bracket(None, None))
    case Some(s) =>
      if |s| == 0 then Err(IndexError)
      else match FirstRange(s, val, 0)
        case Some(i) => Ok(Bracket(Some(s[i]), Some(s[i + 1])))
        case None =>
          Ok(Bracket(if val > s[|s| - 1] then Some(s[|s| - 1]) else None,
                     if val < s[0] then Some(s[0]) else None))
  }

  /** inbetween(list, val) with its loop over the consecutive pairs. */
  method InBetween(list: Option<seq<int>>, val: int) returns (r: Result<Bracket>)
    ensures r == Bracketing(list, val)
  {
    var prev: Option<int> := None;
    var next: Option<int> := None;
    if list.Some? {
      var s := list.value;
      if |s| == 0 {
        return Err(IndexError);
      }
      if val < s[0] {
        next := Some(s[0]);
      }
      if val > s[|s| - 1] {
        prev := Some(s[|s| - 1]);
      }
      if |s| > 1 {
        var i := 0;
        while i < |s| - 1
          invariant 0 <= i <= |s| - 1
          invariant FirstRange(s, val, 0) == FirstRange(s, val, i)
        {
          if s[i] <= val < s[i + 1] {
            prev := Some(s[i]);
            next := Some(s[i + 1]);
            break;
          }
          i := i + 1;
        }
      }
    }
    return Ok(Bracket(prev, next));
  }

  /** On a sorted list no range holds a value below the first bookmark: the
      result is (None, list[0]). */
  lemma BeforeFirst(s: seq<int>, val: int)
    requires Sorted(s) && s != [] && val < s[0]
    ensures Bracketing(Some(s), val) == Ok(Bracket(None, Some(s[0])))
  {
  }

  /** On a sorted list a value above the last bookmark gives (list[-1], None). */
  lemma AfterLast(s: seq<int>, val: int)
    requires Sorted(s) && s != [] && val > s[|s| - 1]
    ensures Bracketing(Some(s), val) == Ok(Bracket(Some(s[|s| - 1]), None))
  {
  }

  /** A value equal to the last bookmark lies in no half-open range and is
      neither below the first nor above the last one: (None, None). */
  lemma AtLast(s: seq<int>)
    requires Sorted(s) && s != []
    ensures Bracketing(Some(s), s[|s| - 1]) == Ok(Bracket(None, None))
  {
  }

  /** On a sorted list a value from the first bookmark up to (not including)
      the last one gets two bookmarks prev <= val < next that are consecutive
      in the list, so no bookmark lies strictly between them. */
  lemma Inside(s: seq<int>, val: int)
    requires Sorted(s) && s != [] && s[0] <= val < s[|s| - 1]
    ensures Bracketing(Some(s), val).Ok?
    ensures var b := Bracketing(Some(s), val).value;
            && b.prev.Some? && b.next.Some?
            && b.prev.value <= val < b.next.value
            && b.prev.value in s && b.next.value in s
            && forall x :: x in s ==> x <= b.prev.value || b.next.value <= x
  {
    var j := LastAtMost(s, val);
    var k := FirstRange(s, val, 0);
    assert k.Some?;
    var i := k.value;
    forall x | x in s
      ensures x <= s[i] || s[i + 1] <= x
    {
      var m :| 0 <= m < |s| && s[m] == x;
      if m <= i {
        assert s[m] <= s[i];
      } else {
        assert s[i + 1] <= s[m];
      }
    }
  }

  /** The last index of a sorted list whose entry is at most val, when the
      first entry is and the last is not. */
  lemma LastAtMost(s: seq<int>, val: int) returns (j: nat)
    requires s != [] && s[0] <= val < s[|s| - 1]
    ensures j + 1 < |s| && s[j] <= val < s[j + 1]
  {
    j := 0;
    while s[j + 1] <= val
      invariant j + 1 < |s| && s[j] <= val
      decreases |s| - j
    {
      j := j + 1;
    }
  }

  // ---------------------------------------------------------------------------
  // Bookmark insertion: bookmarks.append(frame); bookmarks.sort()

  /** Every entry of a list is at least lo. */
  predicate AtLeast(s: seq<int>, lo: int) {
    forall i :: 0 <= i < |s| ==> lo <= s[i]
  }

  /** A bound on the entries carries over to any permutation. */
  lemma BoundOfPermutation(a: seq<int>, b: seq<int>, lo: int)
    requires multiset(a) == multiset(b) && AtLeast(b, lo)
    ensures AtLeast(a, lo)
  {
    forall i | 0 <= i < |a|
      ensures lo <= a[i]
    {
      assert a[i] in multiset(b);
    }
  }

  /** x put in front of the first entry of a sorted list that is not smaller. */
  function Insert(s: seq<int>, x: int): (r: seq<int>)
    requires Sorted(s)
    ensures Sorted(r)
    ensures multiset(r) == multiset(s) + multiset{x}
    decreases |s|
  {
    if s == [] || x <= s[0] then
      InsertFront(s, x);
      [x] + s
    else
      var t := Insert(s[1..], x);
      InsertBehind(s, x, t);
      [s[0]] + t
  }

  /** Putting x before a sorted list whose head is not smaller keeps it sorted. */
  lemma InsertFront(s: seq<int>, x: int)
    requires Sorted(s) && (s == [] || x <= s[0])
    ensures Sorted([x] + s)
  {
    assert AtLeast(s, x);
    SortedCons(x, s);
  }

  /** Keeping the head of a sorted list in front of x inserted into its tail
      gives a sorted list with one more occurrence of x. */
  lemma InsertBehind(s: seq<int>, x: int, t: seq<int>)
    requires Sorted(s) && s != [] && s[0] < x
    requires Sorted(t) && multiset(t) == multiset(s[1..]) + multiset{x}
    ensures Sorted([s[0]] + t)
    ensures multiset([s[0]] + t) == multiset(s) + multiset{x}
  {
    TailBound(s, x);
    BoundOfPermutation(t, s[1..] + [x], s[0]);
    SortedCons(s[0], t);
    assert multiset(s) == multiset{s[0]} + multiset(s[1..]) by {
      assert s == [s[0]] + s[1..];
    }
  }

  /** The head of a sorted list bounds its tail and any larger x. */
  lemma TailBound(s: seq<int>, x: int)
    requires Sorted(s) && s != [] && s[0] < x
    ensures AtLeast(s[1..] + [x], s[0])
  {
    forall i | 0 <= i < |s[1..] + [x]|
      ensures s[0] <= (s[1..] + [x])[i]
    {
      if i < |s| - 1 {
        assert (s[1..] + [x])[i] == s[i + 1];
      }
    }
  }

  /** A sorted list headed by a value no larger than its entries stays sorted. */
  lemma SortedCons(h: int, t: seq<int>)
    requires Sorted(t) && AtLeast(t, h)
    ensures Sorted([h] + t)
  {
    forall i, j | 0 <= i < j < |[h] + t|
      ensures ([h] + t)[i] <= ([h] + t)[j]
    {
      assert ([h] + t)[j] == t[j - 1];
      if 0 < i {
        assert ([h] + t)[i] == t[i - 1];
      }
    }
  }

  /** list.sort() on integers: the ascending permutation of the list. */
  function SortList(s: seq<int>): (r: seq<int>)
    ensures Sorted(r)
    ensures multiset(r) == multiset(s)
    decreases |s|
  {
    if s == [] then []
    else
      assert s == [s[0]] + s[1..];
      Insert(SortList(s[1..]), s[0])
  }

  /** The bookmark list after the Bookmark event: sorted, and holding one more
      occurrence of the current frame and otherwise the same bookmarks. */
  function AddBookmark(bookmarks: seq<int>, frame: int): (r: seq<int>)
    ensures Sorted(r)
    ensures multiset(r) == multiset(bookmarks) + multiset{frame}
    ensures |r| == |bookmarks| + 1
  {
    SortList(bookmarks + [frame])
  }

  // ---------------------------------------------------------------------------
  // Sync points: an insertion-ordered dictionary from frame to epoch time

  /** A sync point: a frame and the epoch time it shows. */
  type SyncPoint = (int, real)

  /** The sync-point dictionary in its insertion order. */
  predicate UniqueFrames(sps: seq<SyncPoint>) {
    forall i, j :: 0 <= i < j < |sps| ==> sps[i].0 != sps[j].0
  }

  /** The time stored for a frame, if any. */
  function Lookup(sps: seq<SyncPoint>, frame: int): (t: Option<real>)
    ensures t.Some? <==> exists i :: 0 <= i < |sps| && sps[i].0 == frame
    decreases |sps|
  {
    if sps == [] then None
    else if sps[0].0 == frame then Some(sps[0].1)
    else
      var t := Lookup(sps[1..], frame);
      assert forall i :: 1 <= i < |sps| ==> sps[i] == sps[1..][i - 1];
      t
  }

  /** syncpoints[frame] = t: an existing frame keeps its place and gets the
      new time, a new frame goes to the end; the frames stay unique. */
  function Store(sps: seq<SyncPoint>, frame: int, t: real): (r: seq<SyncPoint>)
    ensures |r| == |sps| || |r| == |sps| + 1
    ensures forall i :: 0 <= i < |sps| ==> r[i].0 == sps[i].0
    ensures |r| == |sps| + 1 <==> forall i :: 0 <= i < |sps| ==> sps[i].0 != frame
    ensures |r| == |sps| + 1 ==> r[|sps|] == (frame, t)
    ensures UniqueFrames(sps) ==> UniqueFrames(r)
    decreases |sps|
  {
    if sps == [] then [(frame, t)]
    else if sps[0].0 == frame then [(frame, t)] + sps[1..]
    else
      var r := [sps[0]] + Store(sps[1..], frame, t);
      assert forall i :: 1 <= i < |sps| ==> sps[i] == sps[1..][i - 1];
      r
  }

  /** After storing, the frame maps to the new time and every other frame to
      what it mapped to before. */
  lemma {:induction false} StoreLookup(sps: seq<SyncPoint>, frame: int, t: real, other: int)
    ensures Lookup(Store(sps, frame, t), frame) == Some(t)
    ensures other != frame ==> Lookup(Store(sps, frame, t), other) == Lookup(sps, other)
    decreases |sps|
  {
    if sps != [] {
      var r := Store(sps, frame, t);
      if sps[0].0 != frame {
        StoreLookup(sps[1..], frame, t, other);
        assert r[1..] == Store(sps[1..], frame, t);
      } else {
        assert r[1..] == sps[1..];
      }
    }
  }

  // ---------------------------------------------------------------------------
  // calcfps(syncpoints) and frame2time(cur_frame, syncpoints, fps)

  /** Frames per second between two sync points: frame delta over time delta. */
  function Fps(a: SyncPoint, b: SyncPoint): real
    requires b.1 != a.1
  {
    (b.0 - a.0) as real / (b.1 - a.1)
  }

  /** calcfps: the ratios of consecutive sync points in insertion order, none
      for fewer than two points, and a ZeroDivisionError at the first pair
      with equal times. */
  method CalcFps(sps: seq<SyncPoint>) returns (r: Result<seq<real>>)
    ensures r.Err? <==> exists i :: 0 < i < |sps| && sps[i].1 == sps[i - 1].1
    ensures r.Err? ==> r.fault == ZeroDivisionError
    ensures r.Ok? ==> |r.value| == (if |sps| < 2 then 0 else |sps| - 1)
    ensures r.Ok? ==> forall i :: 0 <= i < |r.value| ==>
              sps[i + 1].1 != sps[i].1 && r.value[i] == Fps(sps[i], sps[i + 1])
  {
    var fpss: seq<real> := [];
    var sp0: Option<SyncPoint> := None;
    if |sps| > 1 {
      for i := 0 to |sps|
        invariant sp0 == if i == 0 then None else Some(sps[i - 1])
        invariant |fpss| == if i == 0 then 0 else i - 1
        invariant forall j :: 0 < j < i ==> sps[j].1 != sps[j - 1].1
        invariant forall j :: 0 <= j < |fpss| ==>
                    sps[j + 1].1 != sps[j].1 && fpss[j] == Fps(sps[j], sps[j + 1])
      {
        if sp0.Some? {
          if sps[i].1 - sp0.value.1 == 0.0 {
            return Err(ZeroDivisionError);
          }
          ghost var before := fpss;
          fpss := fpss + [Fps(sp0.value, sps[i])];
          assert forall j :: 0 <= j < |before| ==> fpss[j] == before[j];
        }
        sp0 := Some(sps[i]);
      }
    }
    return Ok(fpss);
  }

  /** frame2time: the time of a frame on the line through the first sync
      point with slope 1/fps. StopIteration without sync points, a
      ZeroDivisionError for fps 0. */
  function Frame2Time(curFrame: int, sps: seq<SyncPoint>, fps: real): (r: Result<real>)
    ensures r.Err? <==> sps == [] || fps == 0.0
    ensures sps == [] ==> r == Err(StopIteration)
    ensures r.Ok? ==> (r.value - sps[0].1) * fps == (curFrame - sps[0].0) as real
  {
    if sps == [] then Err(StopIteration)
    else if fps == 0.0 then Err(ZeroDivisionError)
    else
      var (fsp, t1) := sps[0];
      Ok(t1 - (fsp - curFrame) as real / fps)
  }

  /** The frame of the first sync point maps to its own time, and one frame
      more is 1/fps seconds later. */
  lemma Frame2TimeAnchor(curFrame: int, sps: seq<SyncPoint>, fps: real)
    requires sps != [] && fps != 0.0
    ensures Frame2Time(sps[0].0, sps, fps) == Ok(sps[0].1)
    ensures Frame2Time(curFrame + 1, sps, fps).value
            == Frame2Time(curFrame, sps, fps).value + 1.0 / fps
  {
  }

  /** With the rate calcfps gives for the first two sync points (the rate the
      player uses), frame2time maps the second sync point's frame to its time. */
  lemma {:induction false} Frame2TimeSecondPoint(sps: seq<SyncPoint>)
    requires |sps| >= 2 && sps[1].1 != sps[0].1 && sps[1].0 != sps[0].0
    ensures Frame2Time(sps[1].0, sps, Fps(sps[0], sps[1])) == Ok(sps[1].1)
  {
    var df := (sps[1].0 - sps[0].0) as real;
    var dt := sps[1].1 - sps[0].1;
    var fps := Fps(sps[0], sps[1]);
    assert fps == df / dt;
    assert fps != 0.0;
    assert (sps[0].0 - sps[1].0) as real / fps == -dt by {
      assert -df / (df / dt) == -dt;
    }
  }
}
