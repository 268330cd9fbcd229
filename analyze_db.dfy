/** The message-code continuity checker for a database of logged CANaerospace
    frames. Byte 0 of a frame's payload is the sending node and byte 3 its
    rolling message code, which should go up by one from frame to frame of the
    same node and wrap from 255 to 0. Every break of that sequence is counted
    per node and per CAN id; the CAN ids are also counted on their own, and so
    are the rows. */
module AnalyzeDb {
  import opened Outcomes
  import opened Counting

  /** One row of the messages table: the CAN id (column 1) and the payload
      (column 6). */
  datatype Row = Row(id: int, data: seq<byte>)

  /** The four dictionaries and the row counter the script keeps. */
  datatype Analysis = Analysis(
    codes: map<int, int>,       // last message code per node
    codesStats: map<int, int>,  // breaks per node
    idsStats: map<int, int>,    // breaks per CAN id
    canIds: map<int, int>,      // canid_statistics counts
    cnt: nat)

  function Initial(): Analysis {
    Analysis(map[], map[], map[], map[], 0)
  }

  // ---------------------------------------------------------------------------
  // codes_statistics

  /** The code expected after prev: one more, and 0 after 255. */
  function Expected(prev: int): (e: int)
    ensures 0 <= prev <= 255 ==> e == (prev + 1) % 256
    ensures 0 <= prev <= 255 ==> 0 <= e <= 255
  {
    if prev == 255 then 0 else prev + 1
  }

  /** The test of codes_statistics: the node was seen before, and its last
      code plus i differs from code, where a last code of 255 is first reset
      to 0 and i is then 0 instead of 1. */
  predicate Gap(codes: map<int, int>, node: int, code: int) {
    && node in codes
    && var (prev, i) := if codes[node] == 255 then (0, 0) else (codes[node], 1);
       prev + i != code
  }

  /** The value a dictionary holds for k, 0 when k is absent. */
  function CountOf(m: map<int, int>, k: int): int {
    if k in m then m[k] else 0
  }

  /** A counter update of codes_statistics: k starts at 1 or goes up by 1. */
  function Bump(m: map<int, int>, k: int): (r: map<int, int>)
    ensures r.Keys == m.Keys + {k}
    ensures forall j :: CountOf(r, j) == CountOf(m, j) + (if j == k then 1 else 0)
  {
    if k !in m then m[k := 1] else m[k := m[k] + 1]
  }

  /** codes_statistics(codes, node, code, codes_stats, id, ids_stats) on the
      three dictionaries it updates. The reset of a last code 255 to 0 is
      overwritten by the final assignment and leaves no trace. A break is a
      code other than Expected(last code); the first message from a node is
      never one. */
  function CodesUpdate(a: Analysis, node: int, code: int, id: int): (r: Analysis)
    ensures r.codes.Keys == a.codes.Keys + {node} && r.codes[node] == code
    ensures forall n :: n in a.codes && n != node ==> r.codes[n] == a.codes[n]
    ensures r.canIds == a.canIds && r.cnt == a.cnt
    ensures node !in a.codes ==> r.codesStats == a.codesStats && r.idsStats == a.idsStats
    ensures forall n :: CountOf(r.codesStats, n) == CountOf(a.codesStats, n)
              + (if n == node && node in a.codes && code != Expected(a.codes[node]) then 1 else 0)
    ensures forall n :: CountOf(r.idsStats, n) == CountOf(a.idsStats, n)
              + (if n == id && node in a.codes && code != Expected(a.codes[node]) then 1 else 0)
    ensures r.codesStats.Keys <= a.codesStats.Keys + {node}
    ensures r.idsStats.Keys <= a.idsStats.Keys + {id}
  {
    if Gap(a.codes, node, code) then
      a.(codes := a.codes[node := code],
         codesStats := Bump(a.codesStats, node),
         idsStats := Bump(a.idsStats, id))
    else a.(codes := a.codes[node := code])
  }

  // ---------------------------------------------------------------------------
  // The row loop

  /** One pass of the loop body: node and code are payload bytes 0 and 3
      (IndexError on a payload of fewer than four bytes, before anything is
      updated), then codes_statistics, canid_statistics and cnt += 1. */
  function Feed(a: Analysis, row: Row): (r: Result<Analysis>)
    ensures r.Err? <==> |row.data| < 4
    ensures r.Err? ==> r.fault == IndexError
    ensures r.Ok? ==> r.value.cnt == a.cnt + 1 && r.value.canIds == Statistics(a.canIds, row.id)
  {
    if |row.data| < 4 then Err(IndexError)
    else
      var b := CodesUpdate(a, row.data[0], row.data[3], row.id);
      Ok(b.(canIds := Statistics(b.canIds, row.id), cnt := b.cnt + 1))
  }

  /** The loop over all rows; an exception ends it with the state reached so far. */
  function AnalyzeRows(a: Analysis, rows: seq<Row>): (Analysis, Option<Fault>)
    decreases |rows|
  {
    if rows == [] then (a, None)
    else match Feed(a, rows[0])
      case Err(f) => (a, Some(f))
      case Ok(b) => AnalyzeRows(b, rows[1..])
  }

  /** The CAN ids of the rows. */
  function Ids(rows: seq<Row>): (ids: seq<int>)
    ensures |ids| == |rows| && forall i :: 0 <= i < |rows| ==> ids[i] == rows[i].id
  {
    seq(|rows|, i requires 0 <= i < |rows| => rows[i].id)
  }

  /** The rows among [r] that break their node's sequence. */
  function GapRow(codes: map<int, int>, r: Row): (g: seq<Row>)
    requires 4 <= |r.data|
    ensures forall i :: 0 <= i < |g| ==> 4 <= |g[i].data|
  {
    if Gap(codes, r.data[0], r.data[3]) then [r] else []
  }

  /** The rows that break their node's code sequence, replaying codes from the
      given last codes. */
  function GapRows(codes: map<int, int>, rows: seq<Row>): (g: seq<Row>)
    requires forall i :: 0 <= i < |rows| ==> 4 <= |rows[i].data|
    ensures forall i :: 0 <= i < |g| ==> 4 <= |g[i].data|
    decreases |rows|
  {
    if rows == [] then []
    else
      GapRow(codes, rows[0]) + GapRows(codes[rows[0].data[0] := rows[0].data[3]], rows[1..])
  }

  /** The payload nodes of some rows. */
  function Nodes(rows: seq<Row>): (ns: seq<int>)
    requires forall i :: 0 <= i < |rows| ==> 4 <= |rows[i].data|
    ensures |ns| == |rows| && forall i :: 0 <= i < |rows| ==> ns[i] == rows[i].data[0]
  {
    seq(|rows|, i requires 0 <= i < |rows| && 4 <= |rows[i].data| => rows[i].data[0])
  }

  lemma OccurrencesAppend(xs: seq<int>, ys: seq<int>, x: int)
    ensures Occurrences(xs + ys, x) == Occurrences(xs, x) + Occurrences(ys, x)
    decreases |xs|
  {
    if xs != [] {
      assert (xs + ys)[0] == xs[0];
      assert (xs + ys)[1..] == xs[1..] + ys;
      OccurrencesAppend(xs[1..], ys, x);
    } else {
      assert xs + ys == ys;
    }
  }

  /** A run fails exactly at the first row with a short payload; cnt counts
      the rows handled before it. */
  lemma {:induction false} AnalyzeRowsCount(a: Analysis, rows: seq<Row>)
    ensures AnalyzeRows(a, rows).1.None? <==> forall i :: 0 <= i < |rows| ==> 4 <= |rows[i].data|
    ensures AnalyzeRows(a, rows).1.None? ==> AnalyzeRows(a, rows).0.cnt == a.cnt + |rows|
    ensures AnalyzeRows(a, rows).1.Some? ==>
              var k := AnalyzeRows(a, rows).0.cnt - a.cnt;
              && 0 <= k < |rows| && |rows[k].data| < 4
              && (forall i :: 0 <= i < k ==> 4 <= |rows[i].data|)
              && AnalyzeRows(a, rows).1 == Some(IndexError)
    decreases |rows|
  {
    if rows != [] {
      var f := Feed(a, rows[0]);
      if f.Ok? {
        AnalyzeRowsCount(f.value, rows[1..]);
        assert forall i :: 1 <= i < |rows| ==> rows[i] == rows[1..][i - 1];
      }
    }
  }

  lemma ProjectionsAppend(xs: seq<Row>, ys: seq<Row>)
    requires forall i :: 0 <= i < |xs| ==> 4 <= |xs[i].data|
    requires forall i :: 0 <= i < |ys| ==> 4 <= |ys[i].data|
    ensures Ids(xs + ys) == Ids(xs) + Ids(ys)
    ensures forall i :: 0 <= i < |xs + ys| ==> 4 <= |(xs + ys)[i].data|
    ensures Nodes(xs + ys) == Nodes(xs) + Nodes(ys)
  {
  }

  /** One full row bumps the break counters of its node and its CAN id by one
      exactly when it breaks the sequence. */
  lemma FeedStats(a: Analysis, r: Row, n: int)
    requires 4 <= |r.data|
    ensures Feed(a, r).value.codes == a.codes[r.data[0] := r.data[3]]
    ensures CountOf(Feed(a, r).value.codesStats, n)
            == CountOf(a.codesStats, n) + Occurrences(Nodes(GapRow(a.codes, r)), n)
    ensures CountOf(Feed(a, r).value.idsStats, n)
            == CountOf(a.idsStats, n) + Occurrences(Ids(GapRow(a.codes, r)), n)
  {
    var g := GapRow(a.codes, r);
    if g != [] {
      assert Nodes(g) == [r.data[0]] && Ids(g) == [r.id];
    }
  }

  /** Over rows that all have a full payload, the CAN-id counts are
      canid_statistics applied to every id in turn. */
  lemma {:induction false} AnalyzeRowsIds(a: Analysis, rows: seq<Row>)
    requires forall i :: 0 <= i < |rows| ==> 4 <= |rows[i].data|
    ensures AnalyzeRows(a, rows).0.canIds == StatisticsOfAll(a.canIds, Ids(rows))
    decreases |rows|
  {
    if rows != [] {
      var b := Feed(a, rows[0]).value;
      assert forall i :: 0 <= i < |rows[1..]| ==> 4 <= |rows[1..][i].data|;
      AnalyzeRowsIds(b, rows[1..]);
      assert Ids(rows) == [rows[0].id] + Ids(rows[1..]);
    }
  }

  /** Over rows that all have a full payload, the break counts per node and
      per CAN id go up by one for each row that breaks its node's sequence. */
  lemma {:induction false} AnalyzeRowsBreaks(a: Analysis, rows: seq<Row>, n: int)
    requires forall i :: 0 <= i < |rows| ==> 4 <= |rows[i].data|
    ensures CountOf(AnalyzeRows(a, rows).0.codesStats, n)
            == CountOf(a.codesStats, n) + Occurrences(Nodes(GapRows(a.codes, rows)), n)
    ensures CountOf(AnalyzeRows(a, rows).0.idsStats, n)
            == CountOf(a.idsStats, n) + Occurrences(Ids(GapRows(a.codes, rows)), n)
    decreases |rows|
  {
    if rows != [] {
      var r := rows[0];
      var b := Feed(a, r).value;
      var g := GapRow(a.codes, r);
      var rest := GapRows(b.codes, rows[1..]);
      FeedStats(a, r, n);
      assert forall i :: 0 <= i < |rows[1..]| ==> 4 <= |rows[1..][i].data|;
      AnalyzeRowsBreaks(b, rows[1..], n);
      assert AnalyzeRows(a, rows) == AnalyzeRows(b, rows[1..]);
      assert GapRows(a.codes, rows) == g + rest;
      ProjectionsAppend(g, rest);
      OccurrencesAppend(Ids(g), Ids(rest), n);
      OccurrencesAppend(Nodes(g), Nodes(rest), n);
    }
  }

  // ---------------------------------------------------------------------------
  // The script's state, updated in place

  class CodeChecker {
    var msgCodes: map<int, int>
    var msgCodesStats: map<int, int>
    var msgIdsStats: map<int, int>
    var canIdsStats: map<int, int>
    var cnt: nat

    function State(): Analysis
      reads this
    {
      Analysis(msgCodes, msgCodesStats, msgIdsStats, canIdsStats, cnt)
    }

    constructor ()
      ensures State() == Initial()
    {
      msgCodes, msgCodesStats, msgIdsStats, canIdsStats, cnt := map[], map[], map[], map[], 0;
    }

    /** codes_statistics: the previous code of a known node is reset to 0 when
        it is 255 (the expected code is then 0 itself), a mismatch bumps both
        break counters, and the node's code is overwritten. */
    method CodesStatistics(node: int, code: int, id: int)
      modifies this
      ensures State() == CodesUpdate(old(State()), node, code, id)
    {
      ghost var gap := Gap(msgCodes, node, code);
      if node in msgCodes {
        var i := 1;
        if msgCodes[node] == 255 {
          msgCodes := msgCodes[node := 0];
          i := 0;
        }
        if msgCodes[node] + i != code {
          if node !in msgCodesStats {
            msgCodesStats := msgCodesStats[node := 1];
          } else {
            msgCodesStats := msgCodesStats[node := msgCodesStats[node] + 1];
          }
          if id !in msgIdsStats {
            msgIdsStats := msgIdsStats[id := 1];
          } else {
            msgIdsStats := msgIdsStats[id := msgIdsStats[id] + 1];
          }
        }
      }
      assert msgCodesStats == if gap then Bump(old(msgCodesStats), node) else old(msgCodesStats);
      assert msgIdsStats == if gap then Bump(old(msgIdsStats), id) else old(msgIdsStats);
      msgCodes := msgCodes[node := code];
      assert msgCodes == old(msgCodes)[node := code];
    }

    /** canid_statistics: a first sighting stores 1 and then every sighting
        adds 1. */
    method CanidStatistics(id: int)
      modifies this
      ensures State() == old(State()).(canIds := Statistics(old(canIdsStats), id))
    {
      if id !in canIdsStats {
        canIdsStats := canIdsStats[id := 1];
      }
      canIdsStats := canIdsStats[id := canIdsStats[id] + 1];
    }

    /** The loop over the rows of the messages table. */
    method AnalyzeAll(rows: seq<Row>) returns (fault: Option<Fault>)
      modifies this
      ensures (State(), fault) == AnalyzeRows(old(State()), rows)
    {
      var i := 0;
      fault := None;
      while i < |rows|
        invariant 0 <= i <= |rows|
        invariant AnalyzeRows(old(State()), rows) == AnalyzeRows(State(), rows[i..])
      {
        assert rows[i..][0] == rows[i] && rows[i..][1..] == rows[i + 1..];
        ghost var before := State();
        var msg := rows[i];
        if |msg.data| < 4 {
          fault := Some(IndexError);
          return;
        }
        CodesStatistics(msg.data[0], msg.data[3], msg.id);
        ghost var b := State();
        CanidStatistics(msg.id);
        cnt := cnt + 1;
        assert State() == b.(canIds := Statistics(b.canIds, msg.id), cnt := b.cnt + 1);
        assert Feed(before, msg) == Ok(State());
        i := i + 1;
      }
    }
  }
}
