/** Arrival generators: for a round number, the people who appear on each
    floor, keyed by the floor they start on. */
module ArrivalGenerators {
  import opened Common
  import opened Entities

  /** The (start, target) pair of each person, in order. */
  function PairsOf(people: seq<Person>): (r: seq<(int, int)>)
    ensures |r| == |people|
    ensures forall i :: 0 <= i < |r| ==> r[i] == (people[i].start, people[i].target)
  {
    seq(|people|, i requires 0 <= i < |people| => (people[i].start, people[i].target))
  }

  lemma PairsOfSnoc(people: seq<Person>, p: Person)
    ensures PairsOf(people + [p]) == PairsOf(people) + [(p.start, p.target)]
  {
  }

  /** The pairs among `pairs` that start on floor `f`, in their original order. */
  function StartingAt(pairs: seq<(int, int)>, f: int): (r: seq<(int, int)>)
    ensures |r| <= |pairs|
    ensures forall i :: 0 <= i < |r| ==> r[i].0 == f
  {
    if pairs == [] then []
    else
      var last := pairs[|pairs| - 1];
      StartingAt(pairs[..|pairs| - 1], f) + if last.0 == f then [last] else []
  }

  /** Bucketing only selects: every pair of a bucket is one of `pairs`. */
  lemma {:induction false} StartingAtWithin(pairs: seq<(int, int)>, f: int)
    ensures forall i :: 0 <= i < |StartingAt(pairs, f)| ==> StartingAt(pairs, f)[i] in pairs
  {
    if pairs != [] {
      var init := pairs[..|pairs| - 1];
      StartingAtWithin(init, f);
      assert forall x :: x in init ==> x in pairs;
    }
  }

  lemma StartingAtSnoc(pairs: seq<(int, int)>, x: (int, int), f: int)
    ensures StartingAt(pairs + [x], f) == StartingAt(pairs, f) + if x.0 == f then [x] else []
  {
    assert (pairs + [x])[..|pairs|] == pairs;
  }

  /** How many of `pairs` start on one of the floors 1..upTo. */
  function BucketSizes(pairs: seq<(int, int)>, upTo: int): nat
    decreases upTo
  {
    if upTo < 1 then 0 else BucketSizes(pairs, upTo - 1) + |StartingAt(pairs, upTo)|
  }

  lemma {:induction false} BucketSizesSnoc(pairs: seq<(int, int)>, x: (int, int), upTo: int)
    ensures BucketSizes(pairs + [x], upTo) == BucketSizes(pairs, upTo) + if 1 <= x.0 <= upTo then 1 else 0
    decreases upTo
  {
    if upTo >= 1 {
      BucketSizesSnoc(pairs, x, upTo - 1);
      StartingAtSnoc(pairs, x, upTo);
    }
  }

  /** Bucketing by start floor loses and duplicates nobody: when every pair
      starts on a floor of the building, the buckets hold all of them. */
  lemma {:induction false} BucketsHoldEveryone(pairs: seq<(int, int)>, maxFloor: int)
    requires forall i :: 0 <= i < |pairs| ==> IsFloor(pairs[i].0, maxFloor)
    ensures BucketSizes(pairs, maxFloor) == |pairs|
  {
    if pairs == [] {
      BucketSizesEmpty(maxFloor);
    } else {
      var init := pairs[..|pairs| - 1];
      BucketsHoldEveryone(init, maxFloor);
      assert pairs == init + [pairs[|pairs| - 1]];
      BucketSizesSnoc(init, pairs[|pairs| - 1], maxFloor);
    }
  }

  lemma {:induction false} BucketSizesEmpty(upTo: int)
    ensures BucketSizes([], upTo) == 0
    decreases upTo
  {
    if upTo >= 1 {
      BucketSizesEmpty(upTo - 1);
    }
  }

  /** Queues that file every pair hold as many people as there are pairs. */
  lemma FiledHeadcount(queues: map<int, seq<Person>>, pairs: seq<(int, int)>, maxFloor: int)
    requires Filed(queues, pairs, maxFloor)
    requires forall i :: 0 <= i < |pairs| ==> IsFloor(pairs[i].0, maxFloor)
    ensures Headcount(queues, maxFloor) == |pairs|
  {
    HeadcountOfBuckets(queues, pairs, maxFloor);
    BucketsHoldEveryone(pairs, maxFloor);
  }

  /** How many people `generated` holds on floors 1..upTo. */
  function Headcount(generated: map<int, seq<Person>>, upTo: int): nat
    decreases upTo
  {
    if upTo < 1 then 0
    else Headcount(generated, upTo - 1) + if upTo in generated then |generated[upTo]| else 0
  }

  /** People bucketed from `pairs` number as many as the pairs that start in
      the building. */
  lemma {:induction false} HeadcountOfBuckets(generated: map<int, seq<Person>>, pairs: seq<(int, int)>, upTo: int)
    requires forall f :: 1 <= f <= upTo ==> f in generated && PairsOf(generated[f]) == StartingAt(pairs, f)
    ensures Headcount(generated, upTo) == BucketSizes(pairs, upTo)
    decreases upTo
  {
    if upTo >= 1 {
      HeadcountOfBuckets(generated, pairs, upTo - 1);
      assert |PairsOf(generated[upTo])| == |generated[upTo]|;
    }
  }

  /** Filing one more person under its start floor keeps the queues in step
      with the pairs seen so far, and adds just that person. */
  lemma FileOne(bucket: map<int, seq<Person>>, after: map<int, seq<Person>>,
                pairs: seq<(int, int)>, pairs': seq<(int, int)>, p: Person, maxFloor: int)
    requires Filed(bucket, pairs, maxFloor) && IsFloor(p.start, maxFloor)
    requires p !in bucket[p.start]
    requires after == bucket[p.start := bucket[p.start] + [p]]
    requires pairs' == pairs + [(p.start, p.target)]
    ensures Filed(after, pairs', maxFloor)
    ensures People(after) == People(bucket) + {p}
  {
    forall f | f in after
      ensures PairsOf(after[f]) == StartingAt(pairs', f)
    {
      FileOneAt(bucket[f], pairs, p, f);
    }
    PeopleFileOne(bucket, p);
  }

  lemma FileOneAt(queue: seq<Person>, pairs: seq<(int, int)>, p: Person, f: int)
    requires PairsOf(queue) == StartingAt(pairs, f)
    ensures PairsOf(if f == p.start then queue + [p] else queue) == StartingAt(pairs + [(p.start, p.target)], f)
  {
    StartingAtSnoc(pairs, (p.start, p.target), f);
    PairsOfSnoc(queue, p);
  }

  /** One empty queue for each floor 1..maxFloor. */
  method EmptyQueues(maxFloor: int) returns (queues: map<int, seq<Person>>)
    ensures forall f :: f in queues <==> IsFloor(f, maxFloor)
    ensures forall f :: f in queues ==> queues[f] == []
  {
    queues := map[];
    var i := 1;
    while i <= maxFloor
      invariant 1 <= i && (i <= maxFloor + 1 || i == 1)
      invariant forall f :: f in queues <==> 1 <= f < i
      invariant forall f :: f in queues ==> queues[f] == []
    {
      queues := queues[i := []];
      i := i + 1;
    }
  }

  /** A map of floor number to people, one queue per floor of the building,
      each person listed under its start floor and listed once. */
  ghost predicate Buckets(m: map<int, seq<Person>>, maxFloor: int)
  {
    && (forall f :: f in m <==> IsFloor(f, maxFloor))
    && (forall f :: f in m ==> Distinct(m[f]))
  }

  /** `queues` files exactly `pairs` by start floor, one queue per floor. */
  ghost predicate Filed(queues: map<int, seq<Person>>, pairs: seq<(int, int)>, maxFloor: int)
  {
    && Buckets(queues, maxFloor)
    && forall f :: f in queues ==> PairsOf(queues[f]) == StartingAt(pairs, f)
  }

  /** A new person from `start` to `target`, appended to the queue of their
      start floor. */
  method Arrive(queues: map<int, seq<Person>>, start: int, target: int,
                ghost pairs: seq<(int, int)>, ghost pairs': seq<(int, int)>, maxFloor: int)
    returns (after: map<int, seq<Person>>, p: Person)
    requires Filed(queues, pairs, maxFloor) && IsFloor(start, maxFloor)
    requires pairs' == pairs + [(start, target)]
    ensures fresh(p) && p.start == start && p.target == target && p.waitTime == 0
    ensures Filed(after, pairs', maxFloor)
    ensures People(after) == People(queues) + {p}
  {
    p := new Person(start, target);
    after := queues[start := queues[start] + [p]];
    FileOne(queues, after, pairs, pairs', p, maxFloor);
  }

  /** The `n`-th draw, `(start, target)`, joins the queues filed from the
      draws before it. */
  method ArriveDrawn(queues: map<int, seq<Person>>, draws: seq<(int, int)>, ghost n: int, start: int, target: int,
                     maxFloor: int)
    returns (after: map<int, seq<Person>>, p: Person)
    requires 0 <= n < |draws| && draws[n] == (start, target) && IsFloor(start, maxFloor)
    requires Filed(queues, draws[..n], maxFloor)
    ensures fresh(p) && p.waitTime == 0 && Filed(after, draws[..n + 1], maxFloor)
    ensures People(after) == People(queues) + {p}
  {
    assert draws[..n + 1] == draws[..n] + [(start, target)];
    after, p := Arrive(queues, start, target, draws[..n], draws[..n + 1], maxFloor);
  }

  // ---------------------------------------------------------------------------
  // RandomArrivals
  // ---------------------------------------------------------------------------

  /** A fixed number of random people each round (none when no number is set).
      The random draws are an input: each draw is a start floor and the target
      floor on which the source's redraw loop stops, so it differs from the
      start. */
  class RandomArrivals {
    const maxFloor: int
    var numPeople: Option<int>

    ghost predicate Valid()
      reads this
    {
      maxFloor >= 2 && (numPeople.Some? ==> numPeople.value >= 0)
    }

    constructor (maxFloor: int, numPeople: Option<int>)
      requires maxFloor >= 2
      requires numPeople.Some? ==> numPeople.value >= 0
      ensures Valid() && this.maxFloor == maxFloor && this.numPeople == numPeople
    {
      this.maxFloor := maxFloor;
      this.numPeople := numPeople;
    }

    /** How many people one call generates. */
    function Count(): nat
      reads this
      requires Valid()
    {
      match numPeople
      case None => 0
      case Some(n) => n
    }

    method Generate(roundNum: int, draws: seq<(int, int)>) returns (generated: map<int, seq<Person>>)
      requires Valid()
      requires |draws| == Count()
      requires forall i :: 0 <= i < |draws| ==>
                 IsFloor(draws[i].0, maxFloor) && IsFloor(draws[i].1, maxFloor) && draws[i].0 != draws[i].1
      modifies this
      ensures Valid() && Count() == old(Count())
      ensures numPeople == if old(numPeople).None? then Some(0) else old(numPeople)
      ensures Buckets(generated, maxFloor)
      ensures forall f :: f in generated ==> PairsOf(generated[f]) == StartingAt(draws, f)
      ensures Headcount(generated, maxFloor) == Count()
      ensures fresh(People(generated))
      ensures forall q :: q in People(generated) ==> q.waitTime == 0
    {
      if numPeople.None? {
        numPeople := Some(0);
      }
      generated := EmptyQueues(maxFloor);
      assert People(generated) == {};
      ghost var made: set<Person> := {};
      var n := 0;
      while n < numPeople.value
        modifies {}
        invariant 0 <= n <= |draws|
        invariant Filed(generated, draws[..n], maxFloor)
        invariant People(generated) == made && fresh(made)
        invariant forall q :: q in made ==> q.waitTime == 0
      {
        var start, target := draws[n].0, draws[n].1;
        var p;
        generated, p := ArriveDrawn(generated, draws, n, start, target, maxFloor);
        made := made + {p};
        n := n + 1;
      }
      assert draws[..n] == draws;
      FiledHeadcount(generated, draws, maxFloor);
    }
  }

  // ---------------------------------------------------------------------------
  // FileArrivals
  // ---------------------------------------------------------------------------

  /** A decoded schedule row: the round number, then start/target pairs whose
      start floors are floors of the building. */
  ghost predicate WellFormedRow(row: seq<int>, maxFloor: int)
  {
    && |row| % 2 == 1
    && forall i :: 0 <= i < |RowPairs(row)| ==> IsFloor(RowPairs(row)[i].0, maxFloor)
  }

  /** The (start, target) pairs of a row, in row order. */
  function RowPairs(row: seq<int>): (r: seq<(int, int)>)
    requires |row| % 2 == 1
    ensures |r| == |row| / 2
  {
    seq(|row| / 2, k requires 0 <= k < |row| / 2 => (row[2 * k + 1], row[2 * k + 2]))
  }

  /** The last row for round `round`: later rows for the same round replace
      earlier ones. */
  function LastRow(rows: seq<seq<int>>, round: int): (r: Option<seq<int>>)
    ensures r.Some? ==> r.value in rows && |r.value| > 0 && r.value[0] == round
  {
    if rows == [] then None
    else
      var last := rows[|rows| - 1];
      if |last| > 0 && last[0] == round then Some(last) else LastRow(rows[..|rows| - 1], round)
  }

  /** No row is found for a round exactly when no row starts with its number. */
  lemma {:induction false} LastRowNone(rows: seq<seq<int>>, round: int)
    ensures LastRow(rows, round).None? <==> forall j :: 0 <= j < |rows| && |rows[j]| > 0 ==> rows[j][0] != round
  {
    if rows != [] {
      var n := |rows| - 1;
      if !(|rows[n]| > 0 && rows[n][0] == round) {
        assert LastRow(rows, round) == LastRow(rows[..n], round);
        LastRowNone(rows[..n], round);
        assert forall j :: 0 <= j < n ==> rows[..n][j] == rows[j];
      }
    }
  }

  /** The position of the row found for a round. */
  lemma {:induction false} LastRowAt(rows: seq<seq<int>>, round: int) returns (k: int)
    requires LastRow(rows, round).Some?
    ensures 0 <= k < |rows| && rows[k] == LastRow(rows, round).value
    ensures forall j :: k < j < |rows| && |rows[j]| > 0 ==> rows[j][0] != round
  {
    var n := |rows| - 1;
    if |rows[n]| > 0 && rows[n][0] == round {
      k := n;
    } else {
      assert LastRow(rows, round) == LastRow(rows[..n], round);
      k := LastRowAt(rows[..n], round);
      assert forall j :: 0 <= j < n ==> rows[..n][j] == rows[j];
    }
  }

  /** A later row for the same round replaces an earlier one: the row found
      is one after which no row starts with that round. */
  lemma LastRowIsLast(rows: seq<seq<int>>, round: int)
    requires LastRow(rows, round).Some?
    ensures exists k :: 0 <= k < |rows| && rows[k] == LastRow(rows, round).value &&
              forall j :: k < j < |rows| && |rows[j]| > 0 ==> rows[j][0] != round
  {
    var k := LastRowAt(rows, round);
  }

  lemma LastRowSnoc(rows: seq<seq<int>>, row: seq<int>, round: int)
    requires |row| > 0
    ensures LastRow(rows + [row], round) == if row[0] == round then Some(row) else LastRow(rows, round)
  {
    assert (rows + [row])[..|rows|] == rows;
  }

  /** The people of one decoded row, one queue per floor: the row's pairs
      filed under their start floors in row order, every person new. */
  method ReadRow(data: seq<int>, maxFloor: int) returns (bucket: map<int, seq<Person>>)
    requires maxFloor >= 1 && WellFormedRow(data, maxFloor)
    ensures Filed(bucket, RowPairs(data), maxFloor)
    ensures fresh(People(bucket))
    ensures forall q :: q in People(bucket) ==> q.waitTime == 0
  {
    bucket := EmptyQueues(maxFloor);
    assert People(bucket) == {};
    ghost var pairs := RowPairs(data);
    ghost var made: set<Person> := {};
    var personIndex := 1;
    ghost var n := 0;
    while personIndex < |data|
      invariant personIndex == 2 * n + 1 && 0 <= n <= |pairs|
      invariant Filed(bucket, pairs[..n], maxFloor)
      invariant People(bucket) == made && fresh(made)
      invariant forall q :: q in made ==> q.waitTime == 0
    {
      var start := data[personIndex];
      var target := data[personIndex + 1];
      var p;
      bucket, p := ArrivePair(bucket, data, n, start, target, maxFloor);
      made := made + {p};
      personIndex := personIndex + 2;
      n := n + 1;
    }
    assert pairs[..n] == pairs;
  }

  /** The `n`-th pair of a row, `(start, target)`, joins the queues filed
      from the pairs before it. */
  method ArrivePair(bucket: map<int, seq<Person>>, data: seq<int>, ghost n: int, start: int, target: int, maxFloor: int)
    returns (after: map<int, seq<Person>>, p: Person)
    requires WellFormedRow(data, maxFloor) && 0 <= n < |RowPairs(data)|
    requires start == data[2 * n + 1] && target == data[2 * n + 2]
    requires Filed(bucket, RowPairs(data)[..n], maxFloor)
    ensures fresh(p) && p.waitTime == 0 && Filed(after, RowPairs(data)[..n + 1], maxFloor)
    ensures People(after) == People(bucket) + {p}
  {
    RowPairsPrefix(data, n);
    after, p := Arrive(bucket, start, target, RowPairs(data)[..n], RowPairs(data)[..n + 1], maxFloor);
  }

  lemma RowPairsPrefix(data: seq<int>, n: int)
    requires |data| % 2 == 1 && 0 <= n < |RowPairs(data)|
    ensures 2 * n + 2 < |data|
    ensures RowPairs(data)[n] == (data[2 * n + 1], data[2 * n + 2])
    ensures RowPairs(data)[..n + 1] == RowPairs(data)[..n] + [RowPairs(data)[n]]
  {
  }

  lemma PeopleFileOne(bucket: map<int, seq<Person>>, p: Person)
    requires p.start in bucket
    ensures People(bucket[p.start := bucket[p.start] + [p]]) == People(bucket) + {p}
  {
    var after := bucket[p.start := bucket[p.start] + [p]];
    assert p == after[p.start][|bucket[p.start]|];
    forall q | q in People(after) ensures q in People(bucket) + {p} {
      var f, k :| f in after && 0 <= k < |after[f]| && after[f][k] == q;
      if f == p.start && k < |bucket[f]| {
        assert bucket[f][k] == q;
      }
    }
    forall q | q in People(bucket) ensures q in People(after) {
      var f, k :| f in bucket && 0 <= k < |bucket[f]| && bucket[f][k] == q;
      assert after[f][k] == q;
    }
  }

  /** Everyone filed in `bucket`. */
  ghost function People(bucket: map<int, seq<Person>>): set<Person>
  {
    set f, k | f in bucket && 0 <= k < |bucket[f]| :: bucket[f][k]
  }

  /** Everyone in `queues` is recorded in `roundOf` under round `round`. */
  ghost predicate FiledUnder(queues: map<int, seq<Person>>, roundOf: map<Person, int>, round: int)
  {
    forall q :: q in People(queues) ==> q in roundOf && roundOf[q] == round
  }

  /** `table` holds, for every round with a row among `rows`, one queue per
      floor with the people of that round's last row, and `roundOf` records
      the round of everyone in it. */
  ghost predicate Schedule(table: map<int, map<int, seq<Person>>>, roundOf: map<Person, int>,
                           rows: seq<seq<int>>, maxFloor: int)
  {
    && (forall j :: 0 <= j < |rows| ==> WellFormedRow(rows[j], maxFloor))
    && (forall round :: round in table <==> LastRow(rows, round).Some?)
    && (forall round :: round in table ==>
          && Filed(table[round], RowPairs(LastRow(rows, round).value), maxFloor)
          && FiledUnder(table[round], roundOf, round))
  }

  /** Adding one decoded row, whose people are new, replaces that round's entry. */
  lemma ScheduleAddRow(table: map<int, map<int, seq<Person>>>, roundOf: map<Person, int>,
                       rows: seq<seq<int>>, maxFloor: int, data: seq<int>, bucket: map<int, seq<Person>>)
    requires Schedule(table, roundOf, rows, maxFloor)
    requires WellFormedRow(data, maxFloor)
    requires Filed(bucket, RowPairs(data), maxFloor)
    requires People(bucket) !! roundOf.Keys
    ensures Schedule(table[data[0] := bucket], roundOf + map q | q in People(bucket) :: data[0],
                     rows + [data], maxFloor)
  {
    var round := data[0];
    var table' := table[round := bucket];
    var roundOf' := roundOf + map q | q in People(bucket) :: round;
    var rows' := rows + [data];
    forall j | 0 <= j < |rows'| ensures WellFormedRow(rows'[j], maxFloor) {
      if j < |rows| {
        assert rows'[j] == rows[j];
      }
    }
    forall round' ensures LastRow(rows', round') == if round' == round then Some(data) else LastRow(rows, round') {
      LastRowSnoc(rows, data, round');
    }
    forall round' | round' in table'
      ensures Filed(table'[round'], RowPairs(LastRow(rows', round').value), maxFloor)
      ensures FiledUnder(table'[round'], roundOf', round')
    {
      if round' == round {
        FiledUnderNew(bucket, roundOf, round);
      } else {
        FiledUnderKept(table[round'], roundOf, round', People(bucket), round);
      }
    }
  }

  lemma FiledUnderNew(bucket: map<int, seq<Person>>, roundOf: map<Person, int>, round: int)
    ensures FiledUnder(bucket, roundOf + map q | q in People(bucket) :: round, round)
  {
  }

  lemma FiledUnderKept(queues: map<int, seq<Person>>, roundOf: map<Person, int>, r: int,
                       added: set<Person>, round: int)
    requires FiledUnder(queues, roundOf, r)
    requires added !! roundOf.Keys
    ensures FiledUnder(queues, roundOf + map q | q in added :: round, r)
  {
  }

  /** One more decoded row read into the table: its round's entry becomes the
      row's people, all of them new. */
  method AddRow(table: map<int, map<int, seq<Person>>>, ghost roundOf: map<Person, int>,
                ghost rows: seq<seq<int>>, maxFloor: int, data: seq<int>)
    returns (table': map<int, map<int, seq<Person>>>, ghost roundOf': map<Person, int>)
    requires maxFloor >= 1 && Schedule(table, roundOf, rows, maxFloor) && WellFormedRow(data, maxFloor)
    ensures Schedule(table', roundOf', rows + [data], maxFloor)
    ensures forall q :: q in roundOf' ==> q in roundOf || fresh(q)
    ensures data[0] in table' && table' == table[data[0] := table'[data[0]]]
    ensures forall q :: q in People(table'[data[0]]) ==> q.waitTime == 0
  {
    var bucket := ReadRow(data, maxFloor);
    ScheduleAddRow(table, roundOf, rows, maxFloor, data, bucket);
    roundOf' := roundOf + map q | q in People(bucket) :: data[0];
    table' := table[data[0] := bucket];
  }

  /** Arrivals replayed from a schedule. The rows come already decoded: each
      is a round number followed by start/target pairs. The number of people
      is left to the schedule, so `numPeople` is always `None`. */
  class FileArrivals {
    const maxFloor: int
    const numPeople: Option<int>
    const table: map<int, map<int, seq<Person>>>
    ghost const rows: seq<seq<int>>
    /** The round each person of the table was filed under. */
    ghost const roundOf: map<Person, int>

    /** The table follows the rows; no person is filed under two rounds. */
    ghost predicate Valid()
    {
      maxFloor >= 2 && numPeople == None && Schedule(table, roundOf, rows, maxFloor)
    }

    constructor (maxFloor: int, rows: seq<seq<int>>)
      requires maxFloor >= 2
      requires forall j :: 0 <= j < |rows| ==> WellFormedRow(rows[j], maxFloor)
      ensures Valid() && this.maxFloor == maxFloor && this.rows == rows
      ensures fresh(roundOf.Keys)
      ensures forall round, q :: round in table && q in People(table[round]) ==> q.waitTime == 0
    {
      var t: map<int, map<int, seq<Person>>> := map[];
      ghost var o: map<Person, int> := map[];
      var r := 0;
      while r < |rows|
        invariant 0 <= r <= |rows|
        invariant Schedule(t, o, rows[..r], maxFloor)
        invariant fresh(o.Keys)
        invariant forall round, q :: round in t && q in People(t[round]) ==> q.waitTime == 0
      {
        assert rows[..r + 1] == rows[..r] + [rows[r]];
        t, o := AddRow(t, o, rows[..r], maxFloor, rows[r]);
        r := r + 1;
      }
      assert rows[..r] == rows;
      this.maxFloor := maxFloor;
      numPeople := None;
      table := t;
      this.rows := rows;
      roundOf := o;
    }

    /** The arrivals scheduled for `roundNum`: the table's entry, or none. */
    function Generate(roundNum: int): (generated: map<int, seq<Person>>)
      requires Valid()
      ensures LastRow(rows, roundNum).None? ==> generated == map[]
      ensures LastRow(rows, roundNum).Some? ==> Filed(generated, RowPairs(LastRow(rows, roundNum).value), maxFloor)
      ensures FiledUnder(generated, roundOf, roundNum)
    {
      if roundNum in table then table[roundNum] else map[]
    }

    /** Different rounds never hand out the same person. */
    lemma GenerateDisjointRounds(r1: int, r2: int)
      requires Valid() && r1 != r2
      ensures People(Generate(r1)) !! People(Generate(r2))
    {
      forall q | q in People(Generate(r1)) ensures q !in People(Generate(r2)) {
        assert roundOf[q] == r1;
      }
    }
  }
}
