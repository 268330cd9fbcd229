/** The per-id occurrence counter shared by the timestamp corrector
    (statistics) and the message-code checker (canid_statistics): a dictionary
    from id to count where a first sighting stores 2 and every later one adds 1,
    so that the stored count is one more than the number of sightings. */
module Counting {

  /** statistics(ids, id): a first sighting stores 2, each later one adds 1. */
  function Statistics(ids: map<int, int>, id: int): (r: map<int, int>)
    ensures r.Keys == ids.Keys + {id}
    ensures forall k :: k in ids && k != id ==> r[k] == ids[k]
  {
    ids[id := (if id in ids then ids[id] else 1) + 1]
  }

  /** The occurrences of x in xs. */
  function Occurrences(xs: seq<int>, x: int): nat
    decreases |xs|
  {
    if xs == [] then 0 else (if xs[0] == x then 1 else 0) + Occurrences(xs[1..], x)
  }

  /** statistics applied to each id in turn. */
  function StatisticsOfAll(ids: map<int, int>, xs: seq<int>): map<int, int>
    decreases |xs|
  {
    if xs == [] then ids else StatisticsOfAll(Statistics(ids, xs[0]), xs[1..])
  }

  /** After counting a sequence of ids, an id has an entry exactly when it had
      one or occurs; a new id starts at 1 and every occurrence adds one. */
  lemma {:induction false} StatisticsCount(ids: map<int, int>, xs: seq<int>, x: int)
    ensures x in StatisticsOfAll(ids, xs) <==> x in ids || Occurrences(xs, x) > 0
    ensures x in StatisticsOfAll(ids, xs) ==>
      StatisticsOfAll(ids, xs)[x] == (if x in ids then ids[x] else 1) + Occurrences(xs, x)
    decreases |xs|
  {
    if xs != [] {
      StatisticsCount(Statistics(ids, xs[0]), xs[1..], x);
    }
  }
}
