/** The simulation engine: the waiting queues, the fleet of elevators, the
    counters of one run, and the five stages of a round. */
module Engine {
  import opened Common
  import opened Entities
  import opened MovingAlgorithms
  import opened ArrivalGenerators

  /** Where a person in the building is: in the queue of a floor, or aboard
      the elevator with the given index. */
  datatype Spot = Queue(floor: int) | Aboard(elevator: int)

  /** The arrival generator a simulation is configured with. */
  datatype ArrivalSource = RandomSource(random: RandomArrivals) | FileSource(file: FileArrivals)

  /** The moving algorithm a simulation is configured with. */
  datatype MovingPolicy = RandomMoves | PushyMoves | ShortSightedMoves

  /** The statistics reported at the end of a run. */
  datatype Stats = Stats(numIterations: int, totalPeople: int, peopleCompleted: int,
                         maxTime: int, minTime: int, avgTime: int)

  /** A (start, target) pair a person may be created with: two different
      floors of the building. */
  ghost predicate Legal(pair: (int, int), numFloors: int)
  {
    IsFloor(pair.0, numFloors) && IsFloor(pair.1, numFloors) && pair.0 != pair.1
  }

  // ---------------------------------------------------------------------------
  // Where everybody is
  // ---------------------------------------------------------------------------

  /** The queue of floor `f`: distinct people who started on `f`, want
      another floor of the building, and are recorded as queuing on `f`. */
  ghost predicate QueueOK(q: seq<Person>, f: int, spot: map<Person, Spot>, numFloors: int)
  {
    && Distinct(q)
    && forall k :: 0 <= k < |q| ==>
         && q[k] in spot && spot[q[k]] == Queue(f)
         && q[k].start == f && IsFloor(q[k].target, numFloors) && q[k].target != f
  }

  /** The passengers of elevator `i`: distinct people who want a floor of the
      building, recorded as aboard elevator `i`. */
  ghost predicate AboardOK(ps: seq<Person>, i: int, spot: map<Person, Spot>, numFloors: int)
  {
    && Distinct(ps)
    && forall k :: 0 <= k < |ps| ==> ps[k] in spot && spot[ps[k]] == Aboard(i) && IsFloor(ps[k].target, numFloors)
  }

  /** Everybody in the building is in exactly the place `spot` records: one
      queue per floor, and the passenger lists `lists` of the elevators. */
  ghost predicate Placed(waiting: map<int, seq<Person>>, lists: seq<seq<Person>>, spot: map<Person, Spot>, numFloors: int)
  {
    && IsRegistry(waiting, numFloors)
    && (forall f :: f in waiting ==> QueueOK(waiting[f], f, spot, numFloors))
    && (forall i :: 0 <= i < |lists| ==> AboardOK(lists[i], i, spot, numFloors))
  }

  /** Nobody is in two places: a person in a queue is in no other queue, at
      no other position, and aboard no elevator; a passenger is aboard one
      elevator only, once. */
  lemma PlacedOnce(waiting: map<int, seq<Person>>, lists: seq<seq<Person>>, spot: map<Person, Spot>, numFloors: int)
    requires Placed(waiting, lists, spot, numFloors)
    ensures forall f, g, k, j ::
              (f in waiting && g in waiting && 0 <= k < |waiting[f]| && 0 <= j < |waiting[g]| &&
               waiting[f][k] == waiting[g][j]) ==> f == g && k == j
    ensures forall f, i, k, j :: f in waiting && 0 <= i < |lists| && 0 <= k < |waiting[f]| && 0 <= j < |lists[i]| ==>
              waiting[f][k] != lists[i][j]
    ensures forall i, i', k, j ::
              (0 <= i < |lists| && 0 <= i' < |lists| && 0 <= k < |lists[i]| && 0 <= j < |lists[i']| &&
               lists[i][k] == lists[i'][j]) ==> i == i' && k == j
  {
    forall f, g, k, j | f in waiting && g in waiting && 0 <= k < |waiting[f]| && 0 <= j < |waiting[g]| &&
                        waiting[f][k] == waiting[g][j]
      ensures f == g && k == j
    {
      assert QueueOK(waiting[f], f, spot, numFloors) && QueueOK(waiting[g], g, spot, numFloors);
      assert spot[waiting[f][k]] == Queue(f) && spot[waiting[g][j]] == Queue(g);
    }
    forall f, i, k, j | f in waiting && 0 <= i < |lists| && 0 <= k < |waiting[f]| && 0 <= j < |lists[i]|
      ensures waiting[f][k] != lists[i][j]
    {
      assert QueueOK(waiting[f], f, spot, numFloors) && AboardOK(lists[i], i, spot, numFloors);
      assert spot[waiting[f][k]] == Queue(f) && spot[lists[i][j]] == Aboard(i);
    }
    forall i, i', k, j | 0 <= i < |lists| && 0 <= i' < |lists| && 0 <= k < |lists[i]| && 0 <= j < |lists[i']| &&
                         lists[i][k] == lists[i'][j]
      ensures i == i' && k == j
    {
      assert AboardOK(lists[i], i, spot, numFloors) && AboardOK(lists[i'], i', spot, numFloors);
      assert spot[lists[i][k]] == Aboard(i) && spot[lists[i'][j]] == Aboard(i');
    }
  }

  /** New arrivals on floor `f`, none of them in the building yet, join the
      end of its queue. */
  lemma PlacedArrive(waiting: map<int, seq<Person>>, lists: seq<seq<Person>>, spot: map<Person, Spot>, numFloors: int,
                     f: int, newcomers: seq<Person>)
    requires Placed(waiting, lists, spot, numFloors) && f in waiting
    requires Distinct(newcomers)
    requires forall k :: 0 <= k < |newcomers| ==>
               newcomers[k] !in spot && Legal((newcomers[k].start, newcomers[k].target), numFloors) && newcomers[k].start == f
    ensures Placed(waiting[f := waiting[f] + newcomers], lists, spot + map q | q in newcomers :: Queue(f), numFloors)
  {
    var spot' := spot + map q | q in newcomers :: Queue(f);
    var q := waiting[f] + newcomers;
    forall k, j | 0 <= k < j < |q| ensures q[k] != q[j] {
      if j < |waiting[f]| {
        assert QueueOK(waiting[f], f, spot, numFloors);
      } else if k < |waiting[f]| {
        assert QueueOK(waiting[f], f, spot, numFloors);
        assert q[k] in spot && q[j] == newcomers[j - |waiting[f]|];
      } else {
        assert q[k] == newcomers[k - |waiting[f]|] && q[j] == newcomers[j - |waiting[f]|];
      }
    }
    forall g | g in waiting && g != f ensures QueueOK(waiting[g], g, spot', numFloors) {
      assert QueueOK(waiting[g], g, spot, numFloors);
      forall k | 0 <= k < |waiting[g]| ensures waiting[g][k] !in newcomers {
        assert waiting[g][k] in spot;
      }
    }
    forall k | 0 <= k < |q| ensures q[k] in spot' && spot'[q[k]] == Queue(f) {
      if k < |waiting[f]| {
        assert QueueOK(waiting[f], f, spot, numFloors);
        assert q[k] in spot;
        assert q[k] !in newcomers;
      } else {
        assert q[k] == newcomers[k - |waiting[f]|];
      }
    }
    forall i | 0 <= i < |lists| ensures AboardOK(lists[i], i, spot', numFloors) {
      assert AboardOK(lists[i], i, spot, numFloors);
      forall k | 0 <= k < |lists[i]| ensures lists[i][k] !in newcomers {
        assert lists[i][k] in spot;
      }
    }
  }

  /** The passengers of elevator `i` whose target is `floor` leave the
      building; the others stay aboard. */
  lemma PlacedLeave(waiting: map<int, seq<Person>>, lists: seq<seq<Person>>, spot: map<Person, Spot>, numFloors: int,
                    i: int, floor: int)
    requires Placed(waiting, lists, spot, numFloors) && 0 <= i < |lists|
    ensures Placed(waiting, lists[i := Stays(lists[i], floor)], spot - Gone(lists[i], floor), numFloors)
  {
    var gone := Gone(lists[i], floor);
    var spot' := spot - gone;
    assert AboardOK(lists[i], i, spot, numFloors);
    forall g | g in waiting ensures QueueOK(waiting[g], g, spot', numFloors) {
      assert QueueOK(waiting[g], g, spot, numFloors);
    }
    var stays := Stays(lists[i], floor);
    StaysDistinct(lists[i], floor);
    forall k | 0 <= k < |stays| ensures stays[k] in spot' && spot'[stays[k]] == Aboard(i) && IsFloor(stays[k].target, numFloors) {
      assert stays[k] in lists[i];
    }
    forall j | 0 <= j < |lists| && j != i ensures AboardOK(lists[j], j, spot', numFloors) {
      assert AboardOK(lists[j], j, spot, numFloors);
    }
  }

  /** The people who leave elevator passengers `ps` at `floor`. */
  ghost function Gone(ps: seq<Person>, floor: int): (r: set<Person>)
    ensures forall q :: q in r ==> q in ps && q.target == floor
  {
    set q | q in Exits(ps, floor)
  }

  /** The person at the head of the queue of floor `f` boards elevator `i`. */
  lemma PlacedBoard(waiting: map<int, seq<Person>>, lists: seq<seq<Person>>, spot: map<Person, Spot>, numFloors: int,
                    f: int, i: int)
    requires Placed(waiting, lists, spot, numFloors) && f in waiting && waiting[f] != [] && 0 <= i < |lists|
    ensures Placed(waiting[f := waiting[f][1..]], lists[i := lists[i] + [waiting[f][0]]],
                   spot[waiting[f][0] := Aboard(i)], numFloors)
  {
    var p := waiting[f][0];
    var spot' := spot[p := Aboard(i)];
    assert QueueOK(waiting[f], f, spot, numFloors);
    assert spot[p] == Queue(f);
    forall g | g in waiting && g != f ensures QueueOK(waiting[g], g, spot', numFloors) {
      assert QueueOK(waiting[g], g, spot, numFloors);
    }
    var rest := waiting[f][1..];
    forall k | 0 <= k < |rest| ensures rest[k] != p {
      assert rest[k] == waiting[f][k + 1];
    }
    var ps := lists[i] + [p];
    assert AboardOK(lists[i], i, spot, numFloors);
    forall k, j | 0 <= k < j < |ps| ensures ps[k] != ps[j] {
      if j == |lists[i]| {
        assert spot[ps[k]] == Aboard(i);
      }
    }
    forall k | 0 <= k < |ps| ensures ps[k] in spot' && spot'[ps[k]] == Aboard(i) && IsFloor(ps[k].target, numFloors) {
      if k < |lists[i]| {
        assert spot[ps[k]] == Aboard(i);
      }
    }
    forall j | 0 <= j < |lists| && j != i ensures AboardOK(lists[j], j, spot', numFloors) {
      assert AboardOK(lists[j], j, spot, numFloors);
    }
  }

  // ---------------------------------------------------------------------------
  // Arrivals
  // ---------------------------------------------------------------------------

  /** A batch of arrivals that fits the building: queues only for its floors,
      each holding distinct people who start on that floor and want another
      floor of the building. */
  ghost predicate Newcomers(generated: map<int, seq<Person>>, numFloors: int)
  {
    && (forall f :: f in generated ==> IsFloor(f, numFloors) && Distinct(generated[f]))
    && (forall f, k :: f in generated && 0 <= k < |generated[f]| ==>
          generated[f][k].start == f && Legal((f, generated[f][k].target), numFloors))
  }

  /** Arrivals filed from legal pairs fit the building. */
  lemma FiledNewcomers(generated: map<int, seq<Person>>, pairs: seq<(int, int)>, maxFloor: int, numFloors: int)
    requires Filed(generated, pairs, maxFloor) && maxFloor <= numFloors
    requires forall j :: 0 <= j < |pairs| ==> Legal(pairs[j], numFloors)
    ensures Newcomers(generated, numFloors)
  {
    forall f, k | f in generated && 0 <= k < |generated[f]|
      ensures generated[f][k].start == f && Legal((f, generated[f][k].target), numFloors)
    {
      StartingAtWithin(pairs, f);
      assert PairsOf(generated[f])[k] == StartingAt(pairs, f)[k];
    }
  }

  /** A count over floors 1..b equals the count over 1..a when no queue lies
      between them. */
  lemma {:induction false} HeadcountBeyond(generated: map<int, seq<Person>>, a: int, b: int)
    requires 0 <= a <= b
    requires forall f :: f in generated ==> f <= a
    ensures Headcount(generated, b) == Headcount(generated, a)
    decreases b
  {
    if b > a {
      HeadcountBeyond(generated, a, b - 1);
    }
  }

  /** The arrivals of the floors below `f` have joined the queues that were
      `before`; the arrivals of floors `f` and up are still outside; the
      people placed are those of `spot0` and arrivals. */
  ghost predicate AdmittedBelow(waiting: map<int, seq<Person>>, spot: map<Person, Spot>, generated: map<int, seq<Person>>,
                                f: int, before: map<int, seq<Person>>, spot0: map<Person, Spot>)
  {
    && waiting.Keys == before.Keys
    && (forall g :: g in waiting ==> waiting[g] == before[g] + if g < f && g in generated then generated[g] else [])
    && (forall g, k :: f <= g && g in generated && 0 <= k < |generated[g]| ==> generated[g][k] !in spot)
    && (forall q :: q in spot ==> q in spot0 || q in People(generated))
  }

  /** Once every floor of the building is done, all arrivals have joined. */
  lemma AdmittedAll(waiting: map<int, seq<Person>>, spot: map<Person, Spot>, generated: map<int, seq<Person>>,
                    f: int, before: map<int, seq<Person>>, spot0: map<Person, Spot>, numFloors: int)
    requires AdmittedBelow(waiting, spot, generated, f, before, spot0) && Newcomers(generated, numFloors)
    requires f > numFloors
    ensures waiting.Keys == before.Keys
    ensures forall g :: g in waiting ==> waiting[g] == before[g] + if g in generated then generated[g] else []
    ensures forall q :: q in spot ==> q in spot0 || q in People(generated)
  {
  }

  /** Admitting the arrivals of floor `f`, after those of the floors below
      it, moves the boundary up by one floor. */
  lemma AdmitFloor(waiting: map<int, seq<Person>>, spot: map<Person, Spot>, generated: map<int, seq<Person>>,
                   f: int, before: map<int, seq<Person>>, spot0: map<Person, Spot>, numFloors: int)
    requires AdmittedBelow(waiting, spot, generated, f, before, spot0) && Newcomers(generated, numFloors)
    requires f in generated && f in waiting
    ensures AdmittedBelow(waiting[f := waiting[f] + generated[f]], spot + map q | q in generated[f] :: Queue(f),
                          generated, f + 1, before, spot0)
  {
    QueuesJoined(waiting, generated, f, before);
    OthersOutside(spot, generated, f, numFloors);
    ArrivalsPlaced(spot, generated, f, spot0);
  }

  lemma ArrivalsPlaced(spot: map<Person, Spot>, generated: map<int, seq<Person>>, f: int, spot0: map<Person, Spot>)
    requires f in generated && forall q :: q in spot ==> q in spot0 || q in People(generated)
    ensures forall q :: q in spot + (map q | q in generated[f] :: Queue(f)) ==> q in spot0 || q in People(generated)
  {
    forall q | q in generated[f] ensures q in People(generated) {
      var k :| 0 <= k < |generated[f]| && generated[f][k] == q;
    }
  }

  lemma QueuesJoined(waiting: map<int, seq<Person>>, generated: map<int, seq<Person>>, f: int, before: map<int, seq<Person>>)
    requires waiting.Keys == before.Keys && f in generated && f in waiting
    requires forall g :: g in waiting ==> waiting[g] == before[g] + if g < f && g in generated then generated[g] else []
    ensures forall g :: g in waiting[f := waiting[f] + generated[f]] ==>
              waiting[f := waiting[f] + generated[f]][g] == before[g] + if g < f + 1 && g in generated then generated[g] else []
  {
  }

  lemma OthersOutside(spot: map<Person, Spot>, generated: map<int, seq<Person>>, f: int, numFloors: int)
    requires Newcomers(generated, numFloors) && f in generated
    requires forall g, k :: f <= g && g in generated && 0 <= k < |generated[g]| ==> generated[g][k] !in spot
    ensures forall g, k :: f + 1 <= g && g in generated && 0 <= k < |generated[g]| ==>
              generated[g][k] !in spot + map q | q in generated[f] :: Queue(f)
  {
    forall g, k | f + 1 <= g && g in generated && 0 <= k < |generated[g]|
      ensures generated[g][k] !in generated[f]
    {
      assert generated[g][k].start == g;
    }
  }

  /** A floor without arrivals moves the boundary up by one floor. */
  lemma AdmitNone(waiting: map<int, seq<Person>>, spot: map<Person, Spot>, generated: map<int, seq<Person>>,
                  f: int, before: map<int, seq<Person>>, spot0: map<Person, Spot>)
    requires AdmittedBelow(waiting, spot, generated, f, before, spot0) && f !in generated
    ensures AdmittedBelow(waiting, spot, generated, f + 1, before, spot0)
  {
  }

  /** The arrivals join the end of the queue of their floor, floor by floor
      in ascending order; `added` counts them. */
  method JoinQueues(waiting: map<int, seq<Person>>, generated: map<int, seq<Person>>, numFloors: int,
                    ghost lists: seq<seq<Person>>, ghost spot: map<Person, Spot>)
    returns (queues: map<int, seq<Person>>, added: int, ghost placed: map<Person, Spot>)
    requires Placed(waiting, lists, spot, numFloors) && Newcomers(generated, numFloors)
    requires forall f, k :: f in generated && 0 <= k < |generated[f]| ==> generated[f][k] !in spot
    ensures Placed(queues, lists, placed, numFloors)
    ensures queues.Keys == waiting.Keys
    ensures forall f :: f in queues ==> queues[f] == waiting[f] + if f in generated then generated[f] else []
    ensures added == Headcount(generated, numFloors)
    ensures forall q :: q in placed ==> q in spot || q in People(generated)
  {
    queues, added, placed := waiting, 0, spot;
    var f := 1;
    while f <= numFloors
      invariant 1 <= f <= numFloors + 1 || (f == 1 && numFloors < 1)
      invariant Placed(queues, lists, placed, numFloors)
      invariant AdmittedBelow(queues, placed, generated, f, waiting, spot)
      invariant added == Headcount(generated, f - 1)
    {
      assert Headcount(generated, f) == Headcount(generated, f - 1) + if f in generated then |generated[f]| else 0;
      if f in generated {
        PlacedArrive(queues, lists, placed, numFloors, f, generated[f]);
        AdmitFloor(queues, placed, generated, f, waiting, spot, numFloors);
        queues := queues[f := queues[f] + generated[f]];
        added := added + |generated[f]|;
        placed := placed + map q | q in generated[f] :: Queue(f);
      } else {
        AdmitNone(queues, placed, generated, f, waiting, spot);
      }
      f := f + 1;
    }
    AdmittedAll(queues, placed, generated, f, waiting, spot, numFloors);
  }

  /** Every decoded row of a schedule lists legal pairs. */
  ghost predicate LegalRows(rows: seq<seq<int>>, numFloors: int)
  {
    forall j :: 0 <= j < |rows| && |rows[j]| % 2 == 1 ==>
      forall k :: 0 <= k < |RowPairs(rows[j])| ==> Legal(RowPairs(rows[j])[k], numFloors)
  }

  // ---------------------------------------------------------------------------
  // Snapshots of the fleet
  // ---------------------------------------------------------------------------

  /** The passenger lists of the elevators, in elevator order. */
  ghost function Lists(es: seq<Elevator>): (r: seq<seq<Person>>)
    reads set e | e in es
    ensures |r| == |es| && forall i :: 0 <= i < |es| ==> r[i] == es[i].passengers
  {
    seq(|es|, i requires 0 <= i < |es| reads es => es[i].passengers)
  }

  /** The floors of the elevators, in elevator order. */
  ghost function Floors(es: seq<Elevator>): (r: seq<int>)
    reads set e | e in es
    ensures |r| == |es| && forall i :: 0 <= i < |es| ==> r[i] == es[i].floor
  {
    seq(|es|, i requires 0 <= i < |es| reads es => es[i].floor)
  }

  /** The floors of a fleet after each elevator takes its direction. */
  function Moved(floors: seq<int>, directions: seq<Direction>): (r: seq<int>)
    requires |floors| == |directions|
    ensures |r| == |floors| && forall i :: 0 <= i < |r| ==> r[i] == floors[i] + Delta(directions[i])
  {
    seq(|floors|, i requires 0 <= i < |floors| => floors[i] + Delta(directions[i]))
  }

  /** Everybody who leaves the fleet: elevator by elevator, the passengers of
      `lists[i]` whose target is `floors[i]`, in boarding order. */
  function Departures(lists: seq<seq<Person>>, floors: seq<int>): (r: seq<Person>)
    requires |lists| == |floors|
  {
    if lists == [] then []
    else Departures(lists[..|lists| - 1], floors[..|floors| - 1]) + Exits(lists[|lists| - 1], floors[|floors| - 1])
  }

  /** The wait times of `ps`, in order. */
  function WaitTimes(ps: seq<Person>): (r: seq<int>)
    reads set p | p in ps
    ensures |r| == |ps| && forall k :: 0 <= k < |ps| ==> r[k] == ps[k].waitTime
  {
    seq(|ps|, k requires 0 <= k < |ps| reads ps => ps[k].waitTime)
  }

  /** The passenger lists once the passengers of the first `upTo` elevators
      whose target is their elevator's floor have left. */
  function AfterLeaving(lists: seq<seq<Person>>, floors: seq<int>, upTo: int): (r: seq<seq<Person>>)
    requires |lists| == |floors|
    ensures |r| == |lists|
    ensures forall j :: 0 <= j < |lists| ==> r[j] == if j < upTo then Stays(lists[j], floors[j]) else lists[j]
  {
    seq(|lists|, j requires 0 <= j < |lists| => if j < upTo then Stays(lists[j], floors[j]) else lists[j])
  }

  /** The departures of one more elevator come after those of the ones before it. */
  lemma DeparturesSnoc(lists: seq<seq<Person>>, floors: seq<int>, i: int)
    requires |lists| == |floors| && 0 <= i < |lists|
    ensures Departures(lists[..i + 1], floors[..i + 1]) == Departures(lists[..i], floors[..i]) + Exits(lists[i], floors[i])
  {
    assert lists[..i + 1][..i] == lists[..i];
    assert floors[..i + 1][..i] == floors[..i];
  }

  /** After stage 2 has handled the first `i` elevators: `cur` holds the
      passenger lists and `done` the people who left, in order. */
  ghost predicate LeftBefore(i: int, lists: seq<seq<Person>>, floors: seq<int>, cur: seq<seq<Person>>, done: seq<Person>)
  {
    && 0 <= i <= |lists| && |floors| == |lists| && |cur| == |lists|
    && (forall j :: 0 <= j < |lists| ==> cur[j] == if j < i then Stays(lists[j], floors[j]) else lists[j])
    && done == Departures(lists[..i], floors[..i])
  }

  lemma LeftStep(i: int, lists: seq<seq<Person>>, floors: seq<int>, cur: seq<seq<Person>>, done: seq<Person>)
    requires LeftBefore(i, lists, floors, cur, done) && i < |lists|
    ensures cur[i] == lists[i]
    ensures LeftBefore(i + 1, lists, floors, cur[i := Stays(cur[i], floors[i])], done + Exits(cur[i], floors[i]))
  {
    DeparturesSnoc(lists, floors, i);
  }

  lemma LeftAll(lists: seq<seq<Person>>, floors: seq<int>, cur: seq<seq<Person>>, done: seq<Person>)
    requires LeftBefore(|lists|, lists, floors, cur, done)
    ensures cur == AfterLeaving(lists, floors, |lists|) && done == Departures(lists, floors)
  {
    assert lists[..|lists|] == lists && floors[..|floors|] == floors;
  }

  /** How many people of `queue` board an elevator holding `ps` with room
      for `capacity`: as many as fit, at most the whole queue. */
  function Room(ps: seq<Person>, queue: seq<Person>, capacity: int): (n: nat)
    ensures n <= |queue|
    ensures |ps| + n <= capacity || n == 0
    ensures n == |queue| || |ps| + n >= capacity
  {
    if capacity - |ps| <= 0 then 0 else Min(capacity - |ps|, |queue|)
  }

  /** Stage 3 at one elevator: the head of the queue of its floor boards
      while there is room. The result is the new passenger list and what
      is left of the queue. */
  function Boarding(ps: seq<Person>, queue: seq<Person>, capacity: int): (r: (seq<Person>, seq<Person>))
    ensures |r.0| >= |ps| && r.0[..|ps|] == ps
    ensures r.0[|ps|..] + r.1 == queue
    ensures |ps| <= capacity ==> |r.0| <= capacity
    ensures r.1 == [] || |r.0| >= capacity
  {
    var n := Room(ps, queue, capacity);
    assert queue[..n] + queue[n..] == queue;
    (ps + queue[..n], queue[n..])
  }

  /** Boarding the head of what is left of the queue. */
  lemma BoardedOneMore(ps: seq<Person>, queue: seq<Person>, n: int)
    requires 0 <= n < |queue|
    ensures (ps + queue[..n]) + [queue[n]] == ps + queue[..n + 1]
    ensures RemoveFirst(queue[n..], queue[n]) == queue[n + 1..]
  {
    assert queue[..n + 1] == queue[..n] + [queue[n]];
    assert queue[n..] == [queue[n]] + queue[n + 1..];
  }

  /** Boarding stops exactly when the queue is empty or the elevator full, so
      `n` people boarded is the outcome `Boarding` describes. */
  lemma BoardingExact(ps: seq<Person>, queue: seq<Person>, capacity: int, n: int)
    requires 0 <= n <= |queue| && |ps| + n <= capacity
    requires n == |queue| || |ps| + n >= capacity
    ensures Boarding(ps, queue, capacity) == (ps + queue[..n], queue[n..])
  {
    assert n == Room(ps, queue, capacity);
  }

  /** The capacities of the elevators, in elevator order. */
  function Caps(es: seq<Elevator>): (r: seq<int>)
    ensures |r| == |es| && forall i :: 0 <= i < |es| ==> r[i] == es[i].capacity
  {
    seq(|es|, i requires 0 <= i < |es| => es[i].capacity)
  }

  /** Stage 3 from elevator `i` on, in elevator order, given the passenger
      lists `lists` and the queues `waiting` at that point: the passenger
      lists and the queues at the end. Elevators on the same floor share its
      queue, so each sees what the ones before it left. */
  function BoardFrom(floors: seq<int>, caps: seq<int>, lists: seq<seq<Person>>, waiting: map<int, seq<Person>>,
                     i: nat): (r: (seq<seq<Person>>, map<int, seq<Person>>))
    requires i <= |lists| == |floors| == |caps|
    requires forall j :: 0 <= j < |floors| ==> floors[j] in waiting
    decreases |lists| - i
  {
    if i == |lists| then (lists, waiting)
    else
      var (ps, rest) := Boarding(lists[i], waiting[floors[i]], caps[i]);
      BoardFrom(floors, caps, lists[i := ps], waiting[floors[i] := rest], i + 1)
  }

  // ---------------------------------------------------------------------------
  // Nobody is lost
  // ---------------------------------------------------------------------------

  /** The number of people aboard elevators with passenger lists `lists`. */
  function Riders(lists: seq<seq<Person>>): nat
  {
    if lists == [] then 0 else Riders(lists[..|lists| - 1]) + |lists[|lists| - 1]|
  }

  /** One elevator's passenger list replaced by `ps`. */
  lemma {:induction false} RidersUpdate(lists: seq<seq<Person>>, i: int, ps: seq<Person>)
    requires 0 <= i < |lists|
    ensures Riders(lists[i := ps]) + |lists[i]| == Riders(lists) + |ps|
  {
    var n := |lists| - 1;
    if i < n {
      assert lists[i := ps][..n] == lists[..n][i := ps];
      RidersUpdate(lists[..n], i, ps);
    } else {
      assert lists[i := ps][..n] == lists[..n];
    }
  }

  /** One floor's queue replaced by `q`. */
  lemma {:induction false} HeadcountUpdate(waiting: map<int, seq<Person>>, f: int, q: seq<Person>, upTo: int)
    requires f in waiting && 1 <= f
    ensures Headcount(waiting[f := q], upTo) + (if f <= upTo then |waiting[f]| else 0)
            == Headcount(waiting, upTo) + (if f <= upTo then |q| else 0)
    decreases upTo
  {
    if upTo >= 1 {
      HeadcountUpdate(waiting, f, q, upTo - 1);
    }
  }

  /** Stage 1 adds the arrivals to the people waiting. */
  lemma {:induction false} HeadcountJoined(before: map<int, seq<Person>>, after: map<int, seq<Person>>,
                                           generated: map<int, seq<Person>>, upTo: int)
    requires forall f :: 1 <= f <= upTo ==>
               f in before && f in after && after[f] == before[f] + if f in generated then generated[f] else []
    ensures Headcount(after, upTo) == Headcount(before, upTo) + Headcount(generated, upTo)
    decreases upTo
  {
    if upTo >= 1 {
      HeadcountJoined(before, after, generated, upTo - 1);
    }
  }

  /** Empty queues hold nobody. */
  lemma {:induction false} HeadcountEmpty(waiting: map<int, seq<Person>>, upTo: int)
    requires forall f :: f in waiting ==> waiting[f] == []
    ensures Headcount(waiting, upTo) == 0
    decreases upTo
  {
    if upTo >= 1 {
      HeadcountEmpty(waiting, upTo - 1);
    }
  }

  /** Empty elevators carry nobody. */
  lemma {:induction false} RidersEmpty(lists: seq<seq<Person>>)
    requires forall i :: 0 <= i < |lists| ==> lists[i] == []
    ensures Riders(lists) == 0
  {
    if lists != [] {
      RidersEmpty(lists[..|lists| - 1]);
    }
  }

  /** Stage 2 takes exactly the people who leave off the elevators. */
  lemma {:induction false} RidersAfterLeaving(lists: seq<seq<Person>>, floors: seq<int>)
    requires |lists| == |floors|
    ensures Riders(AfterLeaving(lists, floors, |lists|)) + |Departures(lists, floors)| == Riders(lists)
  {
    if lists != [] {
      var n := |lists| - 1;
      RidersAfterLeaving(lists[..n], floors[..n]);
      assert AfterLeaving(lists, floors, |lists|)[..n] == AfterLeaving(lists[..n], floors[..n], n);
      ExitsStaysPartition(lists[n], floors[n]);
      assert |multiset(Exits(lists[n], floors[n]))| + |multiset(Stays(lists[n], floors[n]))| == |multiset(lists[n])|;
    }
  }

  /** Stage 3 moves people from the queues onto the elevators and loses
      nobody on the way. */
  lemma {:induction false} BoardFromConserves(floors: seq<int>, caps: seq<int>, lists: seq<seq<Person>>,
                                              waiting: map<int, seq<Person>>, i: nat, numFloors: int)
    requires i <= |lists| == |floors| == |caps|
    requires forall j :: 0 <= j < |floors| ==> floors[j] in waiting && IsFloor(floors[j], numFloors)
    ensures Headcount(BoardFrom(floors, caps, lists, waiting, i).1, numFloors) + Riders(BoardFrom(floors, caps, lists, waiting, i).0)
            == Headcount(waiting, numFloors) + Riders(lists)
    decreases |lists| - i
  {
    if i < |lists| {
      var b := Boarding(lists[i], waiting[floors[i]], caps[i]);
      assert |b.0[|lists[i]|..]| + |b.1| == |waiting[floors[i]]|;
      HeadcountUpdate(waiting, floors[i], b.1, numFloors);
      RidersUpdate(lists, i, b.0);
      BoardFromConserves(floors, caps, lists[i := b.0], waiting[floors[i] := b.1], i + 1, numFloors);
    }
  }

  /** Everybody who arrived has completed a trip, waits in one of the queues
      `waiting`, or rides an elevator with a passenger list of `lists`. */
  ghost predicate Balanced(arrived: int, completed: int, waiting: map<int, seq<Person>>, lists: seq<seq<Person>>,
                           numFloors: int)
  {
    arrived == completed + Headcount(waiting, numFloors) + Riders(lists)
  }

  /** Stage 1 keeps the balance: the arrivals are counted and wait. */
  lemma ArrivalsBalanced(arrived: int, completed: int, before: map<int, seq<Person>>, after: map<int, seq<Person>>,
                         generated: map<int, seq<Person>>, lists: seq<seq<Person>>, numFloors: int)
    requires Balanced(arrived, completed, before, lists, numFloors)
    requires forall f :: 1 <= f <= numFloors ==>
               f in before && f in after && after[f] == before[f] + if f in generated then generated[f] else []
    ensures Balanced(arrived + Headcount(generated, numFloors), completed, after, lists, numFloors)
  {
    HeadcountJoined(before, after, generated, numFloors);
  }

  /** Stage 2 keeps the balance: the people who leave count as completed. */
  lemma LeavingBalanced(arrived: int, completed: int, waiting: map<int, seq<Person>>, lists: seq<seq<Person>>,
                        floors: seq<int>, numFloors: int)
    requires Balanced(arrived, completed, waiting, lists, numFloors) && |lists| == |floors|
    ensures Balanced(arrived, completed + |Departures(lists, floors)|, waiting, AfterLeaving(lists, floors, |lists|), numFloors)
  {
    RidersAfterLeaving(lists, floors);
  }

  /** Stage 3 keeps the balance: boarders leave a queue for an elevator. */
  lemma BoardingBalanced(arrived: int, completed: int, waiting: map<int, seq<Person>>, lists: seq<seq<Person>>,
                         floors: seq<int>, caps: seq<int>, numFloors: int)
    requires Balanced(arrived, completed, waiting, lists, numFloors)
    requires |lists| == |floors| == |caps|
    requires forall j :: 0 <= j < |floors| ==> floors[j] in waiting && IsFloor(floors[j], numFloors)
    ensures Balanced(arrived, completed, BoardFrom(floors, caps, lists, waiting, 0).1, BoardFrom(floors, caps, lists, waiting, 0).0,
                     numFloors)
  {
    BoardFromConserves(floors, caps, lists, waiting, 0, numFloors);
  }

  /** `spot` once the people of `boarders` are recorded aboard elevator `i`. */
  ghost function BoardedSpot(spot: map<Person, Spot>, boarders: seq<Person>, i: int): (r: map<Person, Spot>)
    ensures forall q :: q in boarders ==> q in r && r[q] == Aboard(i)
    ensures forall q :: q in r ==> q in spot || q in boarders
  {
    if boarders == [] then spot
    else BoardedSpot(spot, boarders[..|boarders| - 1], i)[boarders[|boarders| - 1] := Aboard(i)]
  }

  /** The head `n` people of the queue of floor `f` board elevator `i`, in
      queue order. */
  lemma {:induction false} PlacedBoardMany(waiting: map<int, seq<Person>>, lists: seq<seq<Person>>, spot: map<Person, Spot>,
                                           numFloors: int, f: int, i: int, n: nat)
    requires Placed(waiting, lists, spot, numFloors) && f in waiting && n <= |waiting[f]| && 0 <= i < |lists|
    ensures Placed(waiting[f := waiting[f][n..]], lists[i := lists[i] + waiting[f][..n]],
                   BoardedSpot(spot, waiting[f][..n], i), numFloors)
  {
    var q := waiting[f];
    if n == 0 {
      assert q[0..] == q && lists[i] + q[..0] == lists[i];
      assert waiting[f := q] == waiting && lists[i := lists[i]] == lists;
    } else {
      PlacedBoardMany(waiting, lists, spot, numFloors, f, i, n - 1);
      var w := waiting[f := q[n - 1..]];
      var l := lists[i := lists[i] + q[..n - 1]];
      PlacedBoard(w, l, BoardedSpot(spot, q[..n - 1], i), numFloors, f, i);
      BoardOneMore(waiting, lists, spot, f, i, n);
    }
  }

  /** The states before and after one more person of the queue boards. */
  lemma BoardOneMore(waiting: map<int, seq<Person>>, lists: seq<seq<Person>>, spot: map<Person, Spot>, f: int, i: int, n: nat)
    requires f in waiting && 0 < n <= |waiting[f]| && 0 <= i < |lists|
    ensures var w := waiting[f := waiting[f][n - 1..]];
            var l := lists[i := lists[i] + waiting[f][..n - 1]];
            && w[f] != [] && w[f][0] == waiting[f][n - 1]
            && w[f := w[f][1..]] == waiting[f := waiting[f][n..]]
            && l[i := l[i] + [w[f][0]]] == lists[i := lists[i] + waiting[f][..n]]
            && BoardedSpot(spot, waiting[f][..n - 1], i)[w[f][0] := Aboard(i)] == BoardedSpot(spot, waiting[f][..n], i)
  {
    var q := waiting[f];
    var w := waiting[f := q[n - 1..]];
    var l := lists[i := lists[i] + q[..n - 1]];
    assert w[f][1..] == q[n..];
    assert l[i] + [w[f][0]] == lists[i] + q[..n] by {
      assert q[..n] == q[..n - 1] + [q[n - 1]];
    }
    assert q[..n][..n - 1] == q[..n - 1];
    assert BoardedSpot(spot, q[..n], i) == BoardedSpot(spot, q[..n - 1], i)[q[n - 1] := Aboard(i)];
  }

  /** Every elevator among the first `upTo` that is empty has nobody waiting
      on its floor. */
  ghost predicate Settled(upTo: int, lists: seq<seq<Person>>, floors: seq<int>, waiting: map<int, seq<Person>>)
  {
    forall j :: 0 <= j < upTo && j < |lists| && j < |floors| && lists[j] == [] ==> !HasWaiting(waiting, floors[j])
  }

  /** Elevator `i`, on floor `floors[i]` with room for `capacity`, boards from
      that floor's queue: nobody aboard wants the floor they are on, and each
      of the first `i + 1` elevators that is empty has nobody waiting on its
      floor. */
  lemma SettleStep(waiting: map<int, seq<Person>>, lists: seq<seq<Person>>, spot: map<Person, Spot>, numFloors: int,
                   floors: seq<int>, i: int, capacity: int)
    requires 0 <= i < |lists| == |floors| && floors[i] in waiting && capacity >= 1
    requires QueueOK(waiting[floors[i]], floors[i], spot, numFloors)
    requires AwayFrom(lists, floors) && Settled(i, lists, floors, waiting)
    ensures var b := Boarding(lists[i], waiting[floors[i]], capacity);
            AwayFrom(lists[i := b.0], floors) && Settled(i + 1, lists[i := b.0], floors, waiting[floors[i] := b.1])
  {
    var f := floors[i];
    var b := Boarding(lists[i], waiting[f], capacity);
    var n := Room(lists[i], waiting[f], capacity);
    forall k | 0 <= k < |b.0| ensures b.0[k].target != f {
      if k >= |lists[i]| {
        assert b.0[k] == waiting[f][k - |lists[i]|];
      }
    }
  }

  /** After stage 3 every elevator is ready to move: its passengers want
      other floors of the building, and if it is empty nobody waits on its
      floor. */
  lemma ReadyAll(waiting: map<int, seq<Person>>, lists: seq<seq<Person>>, spot: map<Person, Spot>, numFloors: int,
                 floors: seq<int>)
    requires Placed(waiting, lists, spot, numFloors) && |floors| == |lists|
    requires forall j :: 0 <= j < |floors| ==> IsFloor(floors[j], numFloors)
    requires AwayFrom(lists, floors) && Settled(|lists|, lists, floors, waiting)
    ensures forall j :: 0 <= j < |lists| ==> ReadyToMove(floors[j], lists[j], waiting, numFloors)
  {
    forall j | 0 <= j < |lists| ensures ReadyToMove(floors[j], lists[j], waiting, numFloors) {
      assert AboardOK(lists[j], j, spot, numFloors);
    }
  }

  /** No passenger wants the floor their elevator is on. */
  ghost predicate AwayFrom(lists: seq<seq<Person>>, floors: seq<int>)
  {
    forall j, k :: 0 <= j < |lists| && j < |floors| && 0 <= k < |lists[j]| ==> lists[j][k].target != floors[j]
  }

  /** Right after stage 2, nobody aboard wants the floor their elevator is on. */
  lemma AwayAfterLeaving(lists: seq<seq<Person>>, floors: seq<int>)
    requires |lists| == |floors|
    ensures AwayFrom(AfterLeaving(lists, floors, |lists|), floors)
  {
  }

  /** `n` new elevators of the given capacity, empty, on floor 1. */
  method NewFleet(n: int, capacity: int) returns (es: seq<Elevator>)
    requires capacity >= 1
    ensures |es| == if n < 0 then 0 else n
    ensures Distinct(es)
    ensures forall j :: 0 <= j < |es| ==>
              fresh(es[j]) && es[j].Valid() && es[j].capacity == capacity && es[j].floor == 1 && es[j].passengers == []
  {
    es := [];
    var i := 0;
    while i < n
      modifies {}
      invariant |es| == if i < 0 then 0 else i
      invariant i <= n || i == 0
      invariant Distinct(es)
      invariant forall j :: 0 <= j < |es| ==>
                  fresh(es[j]) && es[j].Valid() && es[j].capacity == capacity && es[j].floor == 1 && es[j].passengers == []
    {
      var e := new Elevator(capacity);
      es := es + [e];
      i := i + 1;
    }
  }

  /** An empty building: empty queues and empty elevators. */
  lemma PlacedEmpty(waiting: map<int, seq<Person>>, lists: seq<seq<Person>>, numFloors: int)
    requires IsRegistry(waiting, numFloors)
    requires forall f :: f in waiting ==> waiting[f] == []
    requires forall i :: 0 <= i < |lists| ==> lists[i] == []
    ensures Placed(waiting, lists, map[], numFloors)
  {
  }

  // ---------------------------------------------------------------------------
  // Statistics
  // ---------------------------------------------------------------------------

  /** The largest of a non-empty list of wait times. */
  function Largest(s: seq<int>): (m: int)
    requires s != []
    ensures m in s && forall k :: 0 <= k < |s| ==> s[k] <= m
  {
    if |s| == 1 then s[0]
    else
      var rest := Largest(s[1..]);
      assert forall k :: 1 <= k < |s| ==> s[k] == s[1..][k - 1];
      if s[0] >= rest then s[0] else rest
  }

  /** The smallest of a non-empty list of wait times. */
  function Smallest(s: seq<int>): (m: int)
    requires s != []
    ensures m in s && forall k :: 0 <= k < |s| ==> m <= s[k]
  {
    if |s| == 1 then s[0]
    else
      var rest := Smallest(s[1..]);
      assert forall k :: 1 <= k < |s| ==> s[k] == s[1..][k - 1];
      if s[0] <= rest then s[0] else rest
  }

  function Total(s: seq<int>): int
  {
    if s == [] then 0 else s[0] + Total(s[1..])
  }

  /** A sum of values between `lo` and `hi` lies between the count times
      `lo` and the count times `hi`. */
  lemma {:induction false} TotalBounds(s: seq<int>, lo: int, hi: int)
    requires forall k :: 0 <= k < |s| ==> lo <= s[k] <= hi
    ensures |s| * lo <= Total(s) <= |s| * hi
  {
    if s != [] {
      assert forall k :: 0 <= k < |s| - 1 ==> s[1..][k] == s[k + 1];
      TotalBounds(s[1..], lo, hi);
      assert |s| * lo == lo + (|s| - 1) * lo;
      assert |s| * hi == hi + (|s| - 1) * hi;
    }
  }

  /** Multiplying by a positive count keeps the strict order of two values. */
  lemma CancelFactor(n: int, a: int, b: int)
    requires n > 0 && n * a < n * b
    ensures a < b
  {
    assert n * (b - a) == n * b - n * a;
  }

  /** Rounding a quotient down keeps it between the bounds the dividend
      gives: the floor of a mean lies between the smallest and largest value. */
  lemma FloorBetween(t: int, n: int, lo: int, hi: int)
    requires n > 0 && n * lo <= t <= n * hi
    ensures lo <= t / n <= hi
  {
    var q := t / n;
    assert n * q <= t < n * q + n;
    assert n * (q + 1) == n * q + n;
    CancelFactor(n, lo, q + 1);
    assert n * q < n * (hi + 1);
    CancelFactor(n, q, hi + 1);
  }

  /** The report of a run: its rounds, arrivals and completed trips, and the
      largest, smallest and mean (rounded down) of the recorded wait times;
      the mean lies between the other two. */
  function Report(rounds: int, arrived: int, completed: int, times: seq<int>): (st: Stats)
    requires times != []
    ensures st.numIterations == rounds && st.totalPeople == arrived && st.peopleCompleted == completed
    ensures st.maxTime in times && forall k :: 0 <= k < |times| ==> times[k] <= st.maxTime
    ensures st.minTime in times && forall k :: 0 <= k < |times| ==> st.minTime <= times[k]
    ensures st.minTime <= st.avgTime <= st.maxTime
  {
    var hi, lo := Largest(times), Smallest(times);
    TotalBounds(times, lo, hi);
    FloorBetween(Total(times), |times|, lo, hi);
    Stats(rounds, arrived, completed, hi, lo, Total(times) / |times|)
  }

  /** One more round of waiting for each of the distinct people `ps`. */
  method RecordWaits(ps: seq<Person>)
    requires Distinct(ps)
    modifies set p | p in ps
    ensures forall k :: 0 <= k < |ps| ==> ps[k].waitTime == old(ps[k].waitTime) + 1
  {
    var j := 0;
    while j < |ps|
      invariant 0 <= j <= |ps|
      invariant forall k :: 0 <= k < j ==> ps[k].waitTime == old(ps[k].waitTime) + 1
      invariant forall k :: j <= k < |ps| ==> ps[k].waitTime == old(ps[k].waitTime)
    {
      ps[j].RecordWait();
      j := j + 1;
    }
  }

  /** Everybody queuing waits one more round; passengers do not yet. */
  method AgeQueues(waiting: map<int, seq<Person>>, numFloors: int, ghost spot: map<Person, Spot>)
    requires IsRegistry(waiting, numFloors)
    requires forall f :: f in waiting ==> QueueOK(waiting[f], f, spot, numFloors)
    modifies set q | q in spot
    ensures forall f, k :: f in waiting && 0 <= k < |waiting[f]| ==> waiting[f][k].waitTime == old(waiting[f][k].waitTime) + 1
    ensures forall q :: q in spot && !spot[q].Queue? ==> q.waitTime == old(q.waitTime)
  {
    var f := 1;
    while f <= numFloors
      invariant 1 <= f <= numFloors + 1 || numFloors < 1
      invariant forall g, k :: g in waiting && g < f && 0 <= k < |waiting[g]| ==> waiting[g][k].waitTime == old(waiting[g][k].waitTime) + 1
      invariant forall q :: q in spot && !(spot[q].Queue? && spot[q].floor < f) ==> q.waitTime == old(q.waitTime)
    {
      assert f in waiting;
      RecordWaits(waiting[f]);
      f := f + 1;
    }
  }

  /** Every passenger of `elevators`, whose lists are `lists`, waits one more
      round; the queues are left alone. */
  method AgeRiders(elevators: seq<Elevator>, ghost lists: seq<seq<Person>>, numFloors: int, ghost spot: map<Person, Spot>)
    requires |lists| == |elevators| && forall i :: 0 <= i < |elevators| ==> elevators[i].passengers == lists[i]
    requires forall i :: 0 <= i < |lists| ==> AboardOK(lists[i], i, spot, numFloors)
    modifies set q | q in spot
    ensures forall i, k :: 0 <= i < |lists| && 0 <= k < |lists[i]| ==> lists[i][k].waitTime == old(lists[i][k].waitTime) + 1
    ensures forall q :: q in spot && !spot[q].Aboard? ==> q.waitTime == old(q.waitTime)
  {
    var i := 0;
    while i < |elevators|
      invariant 0 <= i <= |elevators|
      invariant forall j, k :: 0 <= j < i && 0 <= k < |lists[j]| ==> lists[j][k].waitTime == old(lists[j][k].waitTime) + 1
      invariant forall q :: q in spot && !(spot[q].Aboard? && spot[q].elevator < i) ==> q.waitTime == old(q.waitTime)
    {
      assert elevators[i].passengers == lists[i];
      RecordWaits(elevators[i].passengers);
      i := i + 1;
    }
  }

  // ---------------------------------------------------------------------------
  // The simulation
  // ---------------------------------------------------------------------------

  /** A simulation: a building of `numFloors` floors, a fleet of elevators,
      a queue of waiting people per floor, an arrival generator, a moving
      algorithm, and the counters of the run. `spot` records where each
      person in the building is. */
  class Simulation {
    const numFloors: int
    const elevators: seq<Elevator>
    const arrivals: ArrivalSource
    const policy: MovingPolicy
    var waiting: map<int, seq<Person>>
    var totalArrived: int
    var totalCompleted: int
    var totalRound: int
    var timeRecord: seq<int>
    ghost var spot: map<Person, Spot>

    ghost function Fleet(): set<object>
    {
      set e | e in elevators
    }

    /** The random generator, whose person count is updated when it runs. */
    ghost function Generator(): set<object>
    {
      if arrivals.RandomSource? then {arrivals.random} else {}
    }

    /** The elevators are distinct, within capacity and in the building. */
    ghost predicate FleetOK()
      reads Fleet()
    {
      && Distinct(elevators)
      && forall i :: 0 <= i < |elevators| ==> elevators[i].Valid() && IsFloor(elevators[i].floor, numFloors)
    }

    /** The elevators are distinct and within capacity, with passenger lists
        `lists` and floors `floors`. */
    ghost predicate FleetIs(lists: seq<seq<Person>>, floors: seq<int>)
      reads Fleet()
    {
      && |lists| == |elevators| && |floors| == |elevators| && Distinct(elevators)
      && forall j :: 0 <= j < |elevators| ==>
           elevators[j].Valid() && elevators[j].passengers == lists[j] && elevators[j].floor == floors[j]
    }

    /** The generator fits the building; a schedule lists legal pairs. */
    ghost predicate SourceOK()
      reads Generator()
    {
      match arrivals
      case RandomSource(r) => r.Valid() && r.maxFloor <= numFloors
      case FileSource(fa) => fa.Valid() && fa.maxFloor <= numFloors && LegalRows(fa.rows, numFloors)
    }

    /** The scheduled people in the building came in a round before `round`. */
    ghost predicate ArrivedBefore(round: int)
      reads this
    {
      arrivals.FileSource? ==>
        forall q :: q in spot ==> q in arrivals.file.roundOf && arrivals.file.roundOf[q] < round
    }

    /** The fleet is in the building and within capacity, everybody is in
        exactly one place, and one wait time is recorded per completed trip. */
    ghost predicate Valid()
      reads this, Fleet(), Generator()
    {
      && numFloors >= 2
      && FleetOK()
      && Placed(waiting, Lists(elevators), spot, numFloors)
      && totalCompleted == |timeRecord|
      && SourceOK()
      && ArrivedBefore(totalRound + 1)
    }

    /** Nobody has arrived yet, the elevators are empty on floor 1, and the
        counters are zero. */
    ghost predicate Fresh()
      reads this, Fleet()
    {
      && (forall f :: f in waiting ==> waiting[f] == [])
      && (forall i :: 0 <= i < |elevators| ==> elevators[i].floor == 1 && elevators[i].passengers == [])
      && totalArrived == 0 && totalCompleted == 0 && totalRound == 0 && timeRecord == []
      && spot == map[]
    }

    constructor (numFloors: int, numElevators: int, capacity: int, arrivals: ArrivalSource, policy: MovingPolicy)
      requires numFloors >= 2 && capacity >= 1
      requires arrivals.RandomSource? ==> arrivals.random.Valid() && arrivals.random.maxFloor <= numFloors
      requires arrivals.FileSource? ==>
                 arrivals.file.Valid() && arrivals.file.maxFloor <= numFloors && LegalRows(arrivals.file.rows, numFloors)
      ensures Valid() && Fresh()
      ensures this.numFloors == numFloors && this.arrivals == arrivals && this.policy == policy
      ensures |elevators| == if numElevators < 0 then 0 else numElevators
      ensures forall i :: 0 <= i < |elevators| ==> fresh(elevators[i]) && elevators[i].capacity == capacity
      ensures forall f :: f in waiting <==> IsFloor(f, numFloors)
      ensures Balanced(totalArrived, totalCompleted, waiting, Lists(elevators), numFloors)
    {
      var es := NewFleet(numElevators, capacity);
      var queues := EmptyQueues(numFloors);
      this.numFloors := numFloors;
      this.arrivals := arrivals;
      this.policy := policy;
      elevators := es;
      waiting := queues;
      totalArrived, totalCompleted, totalRound := 0, 0, 0;
      timeRecord := [];
      spot := map[];
      new;
      PlacedEmpty(waiting, Lists(elevators), numFloors);
      HeadcountEmpty(waiting, numFloors);
      RidersEmpty(Lists(elevators));
    }

    /** Stage 1: the generator's people for round `roundNum` join the end of
        the queue of their start floor. */
    method GenerateArrivals(roundNum: int, draws: seq<(int, int)>) returns (generated: map<int, seq<Person>>)
      requires Valid() && roundNum == totalRound && ArrivedBefore(roundNum)
      requires arrivals.RandomSource? ==>
                 |draws| == arrivals.random.Count() &&
                 forall j :: 0 <= j < |draws| ==> Legal(draws[j], arrivals.random.maxFloor)
      modifies this, Generator()
      ensures Valid() && Newcomers(generated, numFloors)
      ensures arrivals.RandomSource? ==>
                && (forall f :: f in generated ==> PairsOf(generated[f]) == StartingAt(draws, f))
                && Headcount(generated, numFloors) == |draws|
      ensures arrivals.FileSource? ==> generated == arrivals.file.Generate(roundNum)
      ensures waiting.Keys == old(waiting).Keys
      ensures forall f :: f in waiting ==> waiting[f] == old(waiting[f]) + if f in generated then generated[f] else []
      ensures totalArrived == old(totalArrived) + Headcount(generated, numFloors)
      ensures totalCompleted == old(totalCompleted) && totalRound == old(totalRound) && timeRecord == old(timeRecord)
      ensures forall q :: q in spot ==> q in old(spot) || fresh(q) || (arrivals.FileSource? && q in arrivals.file.roundOf)
      ensures arrivals.RandomSource? ==> arrivals.random.Count() == old(arrivals.random.Count())
    {
      generated := Produce(roundNum, draws);
      Admit(generated, roundNum);
    }

    /** Everybody in the building after the arrivals of round `roundNum`
        came in that round or earlier. */
    lemma ArrivedAfter(generated: map<int, seq<Person>>, roundNum: int, before: map<Person, Spot>)
      requires arrivals.FileSource? ==>
                 && FiledUnder(generated, arrivals.file.roundOf, roundNum)
                 && forall q :: q in before ==> q in arrivals.file.roundOf && arrivals.file.roundOf[q] < roundNum
      requires forall q :: q in spot ==> q in before || q in People(generated)
      ensures ArrivedBefore(roundNum + 1)
    {
    }

    /** The generator's people for round `roundNum`: new to the building. */
    method Produce(roundNum: int, draws: seq<(int, int)>) returns (generated: map<int, seq<Person>>)
      requires Valid() && ArrivedBefore(roundNum)
      requires arrivals.RandomSource? ==>
                 |draws| == arrivals.random.Count() &&
                 forall j :: 0 <= j < |draws| ==> Legal(draws[j], arrivals.random.maxFloor)
      modifies Generator()
      ensures unchanged(this) && Valid()
      ensures Newcomers(generated, numFloors)
      ensures forall f, k :: f in generated && 0 <= k < |generated[f]| ==> generated[f][k] !in spot
      ensures arrivals.RandomSource? ==>
                && (forall f :: f in generated ==> PairsOf(generated[f]) == StartingAt(draws, f))
                && Headcount(generated, numFloors) == |draws|
                && fresh(People(generated))
      ensures arrivals.FileSource? ==>
                generated == arrivals.file.Generate(roundNum) && FiledUnder(generated, arrivals.file.roundOf, roundNum)
      ensures arrivals.RandomSource? ==> arrivals.random.Count() == old(arrivals.random.Count())
    {
      match arrivals {
      case RandomSource(r) =>
        generated := r.Generate(roundNum, draws);
        FiledNewcomers(generated, draws, r.maxFloor, numFloors);
        FiledHeadcount(generated, draws, r.maxFloor);
        HeadcountBeyond(generated, r.maxFloor, numFloors);
        forall f, k | f in generated && 0 <= k < |generated[f]| ensures generated[f][k] !in spot {
          assert generated[f][k] in People(generated);
        }
      case FileSource(fa) =>
        generated := fa.Generate(roundNum);
        var row := LastRow(fa.rows, roundNum);
        if row.Some? {
          FiledNewcomers(generated, RowPairs(row.value), fa.maxFloor, numFloors);
        }
        forall f, k | f in generated && 0 <= k < |generated[f]| ensures generated[f][k] !in spot {
          assert generated[f][k] in People(generated);
        }
      }
    }

    /** The arrivals join the end of the queue of their floor, and are counted. */
    method Admit(generated: map<int, seq<Person>>, ghost roundNum: int)
      requires Valid() && roundNum == totalRound && Newcomers(generated, numFloors)
      requires forall f, k :: f in generated && 0 <= k < |generated[f]| ==> generated[f][k] !in spot
      requires arrivals.FileSource? ==> FiledUnder(generated, arrivals.file.roundOf, roundNum) && ArrivedBefore(roundNum)
      modifies this`waiting, this`totalArrived, this`spot
      ensures Valid() && ArrivedBefore(roundNum + 1)
      ensures waiting.Keys == old(waiting).Keys
      ensures forall f :: f in waiting ==> waiting[f] == old(waiting[f]) + if f in generated then generated[f] else []
      ensures totalArrived == old(totalArrived) + Headcount(generated, numFloors)
      ensures forall q :: q in spot ==> q in old(spot) || q in People(generated)
    {
      var queues, added, placed := JoinQueues(waiting, generated, numFloors, Lists(elevators), spot);
      waiting, totalArrived, spot := queues, totalArrived + added, placed;
      ArrivedAfter(generated, roundNum, old(spot));
    }

    /** The wait times of `left`, in order, appended to `times`. */
    static method AppendWaits(times: seq<int>, left: seq<Person>) returns (r: seq<int>)
      ensures r == times + WaitTimes(left)
    {
      r := times;
      var k := 0;
      while k < |left|
        invariant 0 <= k <= |left|
        invariant r == times + WaitTimes(left[..k])
      {
        assert left[..k + 1][..k] == left[..k];
        r := r + [left[k].waitTime];
        k := k + 1;
      }
      assert left[..k] == left;
    }

    /** Stage 2 for elevator `i`: its passengers whose target is its floor
        leave the building, and their wait times are recorded in the order
        they leave. `cur` and `floors` are the passenger lists and floors of
        the elevators, and `done` the people who left before this one. */
    method LeaveOne(i: int, ghost cur: seq<seq<Person>>, ghost floors: seq<int>, ghost watch: seq<Person>) returns (left: seq<Person>)
      requires 0 <= i < |cur| && FleetIs(cur, floors)
      modifies elevators[i]
      ensures unchanged(this)
      ensures forall k :: 0 <= k < |watch| ==> watch[k].waitTime == old(watch[k].waitTime)
      ensures FleetIs(cur[i := Stays(cur[i], floors[i])], floors)
      ensures left == Exits(cur[i], floors[i])
    {
      left := elevators[i].Disembark();
    }

    /** The wait times of `left` are recorded in order, and they count as
        completed. */
    method RecordLeft(left: seq<Person>, ghost watch: seq<Person>, ghost times0: seq<int>, ghost recorded: seq<int>)
      returns (ghost waits: seq<int>)
      requires timeRecord == times0 + recorded
      modifies this`timeRecord, this`totalCompleted, this`spot
      ensures timeRecord == times0 + (recorded + waits) && totalCompleted == old(totalCompleted) + |left|
      ensures spot == old(spot) - set p | p in left
      ensures |waits| == |left| && forall k :: 0 <= k < |left| ==> waits[k] == left[k].waitTime
      ensures forall k :: 0 <= k < |watch| ==> watch[k].waitTime == old(watch[k].waitTime)
    {
      var times := AppendWaits(timeRecord, left);
      waits := WaitTimes(left);
      timeRecord, totalCompleted := times, totalCompleted + |left|;
      spot := spot - set p | p in left;
    }

    /** Stage 2: elevator by elevator, everybody aboard whose target is the
        elevator's floor leaves; one wait time per leaver is recorded, and the
        completed count grows by the number of leavers. */
    method HandleLeaving()
      requires Valid()
      modifies Fleet(), this`timeRecord, this`totalCompleted, this`spot
      ensures Valid()
      ensures Floors(elevators) == old(Floors(elevators))
      ensures Lists(elevators) == AfterLeaving(old(Lists(elevators)), old(Floors(elevators)), |elevators|)
      ensures timeRecord == old(timeRecord) + WaitTimes(Departures(old(Lists(elevators)), old(Floors(elevators))))
      ensures totalCompleted == old(totalCompleted) + |Departures(old(Lists(elevators)), old(Floors(elevators)))|
      ensures forall q :: q in spot ==> q in old(spot)
      ensures forall p :: p in Departures(old(Lists(elevators)), old(Floors(elevators))) ==> p !in spot
    {
      ghost var lists, floors := Lists(elevators), Floors(elevators);
      ghost var cur, done := LeaveAll(lists, floors);
      assert Lists(elevators) == cur;
      assert Floors(elevators) == floors;
    }

    /** Elevator `i` lets its passengers for this floor off, and their wait
        times are recorded: the loop invariant of `LeaveAll` moves from `i`
        to `i + 1`. */
    method LeaveStep(i: int, ghost lists: seq<seq<Person>>, ghost floors: seq<int>, ghost cur: seq<seq<Person>>,
                     ghost done: seq<Person>, ghost times0: seq<int>, ghost recorded: seq<int>)
      returns (ghost cur': seq<seq<Person>>, ghost done': seq<Person>, ghost recorded': seq<int>)
      requires LeftBefore(i, lists, floors, cur, done) && i < |lists|
      requires FleetIs(cur, floors) && Placed(waiting, cur, spot, numFloors)
      requires timeRecord == times0 + recorded && |recorded| == |done|
      requires forall k :: 0 <= k < |done| ==> recorded[k] == done[k].waitTime && done[k] !in spot
      modifies elevators[i], this`timeRecord, this`totalCompleted, this`spot
      ensures LeftBefore(i + 1, lists, floors, cur', done')
      ensures FleetIs(cur', floors) && Placed(waiting, cur', spot, numFloors)
      ensures timeRecord == times0 + recorded' && |recorded'| == |done'|
      ensures forall k :: 0 <= k < |done'| ==> recorded'[k] == done'[k].waitTime && done'[k] !in spot
      ensures totalCompleted == old(totalCompleted) + |done'| - |done|
      ensures forall q :: q in spot ==> q in old(spot)
    {
      LeftStep(i, lists, floors, cur, done);
      PlacedLeave(waiting, cur, spot, numFloors, i, floors[i]);
      var left := LeaveOne(i, cur, floors, done);
      ghost var waits := RecordLeft(left, done, times0, recorded);
      recorded' := recorded + waits;
      done' := done + left;
      cur' := cur[i := Stays(cur[i], floors[i])];
      forall k | 0 <= k < |done'| ensures recorded'[k] == done'[k].waitTime && done'[k] !in spot {
        if k < |done| {
          assert done'[k] == done[k] && recorded'[k] == recorded[k];
        } else {
          assert done'[k] == left[k - |done|] && recorded'[k] == waits[k - |done|];
        }
      }
    }

    /** Every elevator in turn lets its passengers for its floor off. */
    method LeaveAll(ghost lists: seq<seq<Person>>, ghost floors: seq<int>) returns (ghost cur: seq<seq<Person>>, ghost done: seq<Person>)
      requires FleetIs(lists, floors) && Placed(waiting, lists, spot, numFloors)
      modifies Fleet(), this`timeRecord, this`totalCompleted, this`spot
      ensures cur == AfterLeaving(lists, floors, |lists|) && done == Departures(lists, floors)
      ensures FleetIs(cur, floors) && Placed(waiting, cur, spot, numFloors)
      ensures timeRecord == old(timeRecord) + WaitTimes(done)
      ensures totalCompleted == old(totalCompleted) + |done|
      ensures forall q :: q in spot ==> q in old(spot)
      ensures forall k :: 0 <= k < |done| ==> done[k] !in spot
    {
      ghost var times0 := timeRecord;
      ghost var recorded: seq<int> := [];
      cur, done := lists, [];
      var i := 0;
      while i < |elevators|
        invariant LeftBefore(i, lists, floors, cur, done)
        invariant FleetIs(cur, floors) && Placed(waiting, cur, spot, numFloors)
        invariant timeRecord == times0 + recorded && |recorded| == |done|
        invariant forall k :: 0 <= k < |done| ==> recorded[k] == done[k].waitTime && done[k] !in spot
        invariant totalCompleted == old(totalCompleted) + |done|
        invariant forall q :: q in spot ==> q in old(spot)
      {
        cur, done, recorded := LeaveStep(i, lists, floors, cur, done, times0, recorded);
        i := i + 1;
      }
      assert i == |lists|;
      assert LeftBefore(i, lists, floors, cur, done);
      LeftAll(lists, floors, cur, done);
      assert recorded == WaitTimes(done);
    }

    /** Stage 3 at elevator `i`: while the queue of its floor is not empty,
        its head boards if there is room; the first refusal ends the loop.
        `queue0` is that queue, and the result is what is left of it. */
    method BoardAt(i: int, ghost cur: seq<seq<Person>>, ghost floors: seq<int>, queue0: seq<Person>)
      returns (queue: seq<Person>)
      requires 0 <= i < |cur| && FleetIs(cur, floors)
      modifies elevators[i]
      ensures unchanged(this)
      ensures FleetIs(cur[i := Boarding(cur[i], queue0, elevators[i].capacity).0], floors)
      ensures queue == Boarding(cur[i], queue0, elevators[i].capacity).1
    {
      var elevator := elevators[i];
      queue := queue0;
      ghost var n := 0;
      var pos := 0;
      while pos < |queue|
        invariant pos == 0 && elevator.Valid() && elevator.floor == floors[i]
        invariant n <= |queue0| && queue == queue0[n..] && elevator.passengers == cur[i] + queue0[..n]
      {
        var passenger := queue[pos];
        var boarded := elevator.Board(passenger);
        if boarded {
          BoardedOneMore(cur[i], queue0, n);
          queue := RemoveFirst(queue, passenger);
          n := n + 1;
          pos := pos - 1;
        } else {
          break;
        }
        pos := pos + 1;
      }
      BoardingExact(cur[i], queue0, elevator.capacity, n);
    }

    /** Elevator `i` takes on people from the queue of its floor: the loop
        invariant of `BoardAll` moves from `i` to `i + 1`. */
    method BoardStep(i: int, ghost floors: seq<int>, ghost caps: seq<int>, ghost cur: seq<seq<Person>>,
                     ghost final: (seq<seq<Person>>, map<int, seq<Person>>))
      returns (ghost cur': seq<seq<Person>>)
      requires 0 <= i < |cur| == |floors| == |caps| && caps == Caps(elevators)
      requires forall j :: 0 <= j < |floors| ==> floors[j] in waiting
      requires FleetIs(cur, floors) && Placed(waiting, cur, spot, numFloors)
      requires BoardFrom(floors, caps, cur, waiting, i) == final
      requires AwayFrom(cur, floors) && Settled(i, cur, floors, waiting)
      modifies elevators[i], this`waiting, this`spot
      ensures forall j :: 0 <= j < |floors| ==> floors[j] in waiting
      ensures FleetIs(cur', floors) && Placed(waiting, cur', spot, numFloors)
      ensures BoardFrom(floors, caps, cur', waiting, i + 1) == final
      ensures AwayFrom(cur', floors) && Settled(i + 1, cur', floors, waiting)
      ensures forall q :: q in spot ==> q in old(spot)
    {
      var f := elevators[i].floor;
      var q0 := waiting[f];
      ghost var n := Room(cur[i], q0, caps[i]);
      assert QueueOK(q0, f, spot, numFloors);
      SettleStep(waiting, cur, spot, numFloors, floors, i, caps[i]);
      PlacedBoardMany(waiting, cur, spot, numFloors, f, i, n);
      var queue := BoardAt(i, cur, floors, q0);
      cur' := cur[i := cur[i] + q0[..n]];
      waiting, spot := waiting[f := queue], BoardedSpot(spot, q0[..n], i);
    }

    /** Every elevator in turn takes on people from the queue of its floor. */
    method BoardAll(ghost lists: seq<seq<Person>>, ghost floors: seq<int>) returns (ghost cur: seq<seq<Person>>)
      requires FleetIs(lists, floors) && Placed(waiting, lists, spot, numFloors)
      requires forall j :: 0 <= j < |floors| ==> IsFloor(floors[j], numFloors) && floors[j] in waiting
      requires AwayFrom(lists, floors)
      modifies Fleet(), this`waiting, this`spot
      ensures (cur, waiting) == BoardFrom(floors, Caps(elevators), lists, old(waiting), 0)
      ensures FleetIs(cur, floors) && Placed(waiting, cur, spot, numFloors)
      ensures forall j :: 0 <= j < |elevators| ==>
                ReadyToMove(elevators[j].floor, elevators[j].passengers, waiting, numFloors)
      ensures forall q :: q in spot ==> q in old(spot)
    {
      ghost var caps := Caps(elevators);
      ghost var final := BoardFrom(floors, caps, lists, waiting, 0);
      cur := lists;
      var i := 0;
      while i < |elevators|
        invariant 0 <= i <= |elevators|
        invariant forall j :: 0 <= j < |floors| ==> floors[j] in waiting
        invariant FleetIs(cur, floors) && Placed(waiting, cur, spot, numFloors)
        invariant BoardFrom(floors, caps, cur, waiting, i) == final
        invariant AwayFrom(cur, floors) && Settled(i, cur, floors, waiting)
        invariant forall q :: q in spot ==> q in old(spot)
      {
        cur := BoardStep(i, floors, caps, cur, final);
        i := i + 1;
      }
      assert i == |lists|;
      ReadyAll(waiting, cur, spot, numFloors, floors);
    }

    /** Stage 3: elevator by elevator, people board from the head of the
        queue of the elevator's floor until it is full or the queue is
        empty. Afterwards every elevator is ready to move. */
    method HandleBoarding()
      requires Valid() && AwayFrom(Lists(elevators), Floors(elevators))
      modifies Fleet(), this`waiting, this`spot
      ensures Valid()
      ensures Floors(elevators) == old(Floors(elevators))
      ensures (Lists(elevators), waiting) == BoardFrom(old(Floors(elevators)), Caps(elevators), old(Lists(elevators)), old(waiting), 0)
      ensures forall i :: 0 <= i < |elevators| ==>
                ReadyToMove(elevators[i].floor, elevators[i].passengers, waiting, numFloors)
      ensures forall q :: q in spot ==> q in old(spot)
    {
      ghost var lists, floors := Lists(elevators), Floors(elevators);
      assert forall j :: 0 <= j < |floors| ==> IsFloor(floors[j], numFloors) && floors[j] in waiting;
      ghost var cur := BoardAll(lists, floors);
      assert Lists(elevators) == cur;
      assert Floors(elevators) == floors;
    }

    /** Stage 4: the configured moving algorithm picks a direction for every
        elevator and moves it; passengers stay aboard, and every elevator
        stays inside the building. */
    method MoveElevators() returns (directions: seq<Direction>)
      requires Valid()
      requires forall i :: 0 <= i < |elevators| ==>
                 ReadyToMove(elevators[i].floor, elevators[i].passengers, waiting, numFloors)
      modifies Fleet()
      ensures Valid()
      ensures Lists(elevators) == old(Lists(elevators)) && |directions| == |elevators|
      ensures forall i :: 0 <= i < |elevators| ==> elevators[i].floor == old(elevators[i].floor) + Delta(directions[i])
      ensures policy.PushyMoves? ==> forall i :: 0 <= i < |elevators| ==>
                directions[i] == PushyChoice(old(elevators[i].floor), old(elevators[i].passengers), waiting, numFloors)
      ensures policy.ShortSightedMoves? ==> forall i :: 0 <= i < |elevators| ==>
                directions[i] == ShortSightedChoice(old(elevators[i].floor), old(elevators[i].passengers), waiting, numFloors)
    {
      ghost var lists, floors := Lists(elevators), Floors(elevators);
      directions := Dispatch(lists, floors);
      assert Lists(elevators) == lists;
    }

    /** The moving algorithm applied to a fleet with passenger lists `lists`
        on floors `floors`. */
    method Dispatch(ghost lists: seq<seq<Person>>, ghost floors: seq<int>) returns (directions: seq<Direction>)
      requires FleetIs(lists, floors) && IsRegistry(waiting, numFloors)
      requires forall i :: 0 <= i < |lists| ==>
                 IsFloor(floors[i], numFloors) && ReadyToMove(floors[i], lists[i], waiting, numFloors)
      modifies Fleet()
      ensures |directions| == |elevators| && FleetIs(lists, Moved(floors, directions))
      ensures forall i :: 0 <= i < |lists| ==> IsFloor(floors[i] + Delta(directions[i]), numFloors)
      ensures policy.PushyMoves? ==> forall i :: 0 <= i < |lists| ==>
                directions[i] == PushyChoice(floors[i], lists[i], waiting, numFloors)
      ensures policy.ShortSightedMoves? ==> forall i :: 0 <= i < |lists| ==>
                directions[i] == ShortSightedChoice(floors[i], lists[i], waiting, numFloors)
    {
      match policy {
        case RandomMoves =>
          directions := RandomAlgorithm(elevators, waiting, numFloors);
        case PushyMoves =>
          forall i | 0 <= i < |lists|
            ensures IsFloor(floors[i] + Delta(PushyChoice(floors[i], lists[i], waiting, numFloors)), numFloors)
          {
            PushyStaysInBuilding(floors[i], lists[i], waiting, numFloors);
          }
          directions := PushyPassenger(elevators, waiting, numFloors);
        case ShortSightedMoves =>
          forall i | 0 <= i < |lists|
            ensures IsFloor(floors[i] + Delta(ShortSightedChoice(floors[i], lists[i], waiting, numFloors)), numFloors)
          {
            ShortSightedStaysInBuilding(floors[i], lists[i], waiting, numFloors);
          }
          directions := ShortSighted(elevators, waiting, numFloors);
      }
    }

    /** The people in the building, whose wait times age every round. */
    ghost function Crowd(): set<Person>
      reads this
    {
      set q | q in spot
    }

    /** The end of a round: everybody queuing and every passenger waits one
        more round, and nothing else changes. */
    method AgeEveryone()
      requires Valid()
      modifies Crowd()
      ensures Valid()
      ensures forall f, k :: f in waiting && 0 <= k < |waiting[f]| ==> waiting[f][k].waitTime == old(waiting[f][k].waitTime) + 1
      ensures forall i, k :: 0 <= i < |elevators| && 0 <= k < |elevators[i].passengers| ==>
                elevators[i].passengers[k].waitTime == old(elevators[i].passengers[k].waitTime) + 1
    {
      ghost var lists := Lists(elevators);
      AgeQueues(waiting, numFloors, spot);
      AgeRiders(elevators, lists, numFloors, spot);
      assert unchanged(this) && unchanged(Fleet()) && unchanged(Generator());
    }

    /** The statistics of the run so far; with no trip completed, a single
        wait time of -1 is recorded first, so all three times read -1. */
    method CalculateStats() returns (stats: Stats)
      modifies this`timeRecord
      ensures timeRecord == if old(timeRecord) == [] then [-1] else old(timeRecord)
      ensures stats == Report(totalRound, totalArrived, totalCompleted, timeRecord)
      ensures old(timeRecord) == [] ==> stats.maxTime == -1 && stats.minTime == -1 && stats.avgTime == -1
    {
      if |timeRecord| == 0 {
        timeRecord := timeRecord + [-1];
      }
      stats := Report(totalRound, totalArrived, totalCompleted, timeRecord);
    }

    /** The people a schedule may bring into the building. */
    ghost function Scheduled(): set<Person>
    {
      if arrivals.FileSource? then arrivals.file.roundOf.Keys else {}
    }

    /** Stages 2 to 4 of a round and the ageing that ends it: nobody new
        enters the building. */
    method ExchangeMoveAge()
      requires Valid()
      modifies Fleet(), this`timeRecord, this`totalCompleted, this`waiting, this`spot, Crowd()
      ensures Valid()
      ensures forall q :: q in spot ==> q in old(spot)
    {
      ExchangePassengers();
      var directions := MoveElevators();
      AgeEveryone();
    }

    /** Stages 2 and 3: passengers leave, then the queues board; afterwards
        every elevator is ready to move. */
    method ExchangePassengers()
      requires Valid()
      modifies Fleet(), this`timeRecord, this`totalCompleted, this`waiting, this`spot
      ensures Valid()
      ensures forall q :: q in spot ==> q in old(spot)
      ensures forall i :: 0 <= i < |elevators| ==>
                ReadyToMove(elevators[i].floor, elevators[i].passengers, waiting, numFloors)
    {
      ghost var lists, floors := Lists(elevators), Floors(elevators);
      HandleLeaving();
      AwayAfterLeaving(lists, floors);
      HandleBoarding();
    }

    /** One round: arrivals, leaving, boarding, moving, and everybody in the
        building waits one more round. */
    method Round(draws: seq<(int, int)>)
      requires Valid() && ArrivedBefore(totalRound)
      requires arrivals.RandomSource? ==>
                 |draws| == arrivals.random.Count() &&
                 forall j :: 0 <= j < |draws| ==> Legal(draws[j], arrivals.random.maxFloor)
      modifies this, Fleet(), Generator(), Crowd(), Scheduled()
      ensures Valid() && totalRound == old(totalRound) + 1 && ArrivedBefore(totalRound)
      ensures arrivals.RandomSource? ==>
                arrivals.random.Count() == old(arrivals.random.Count()) && totalArrived == old(totalArrived) + |draws|
      ensures forall q :: q in spot ==> q in old(spot) || fresh(q) || q in Scheduled()
    {
      var generated := GenerateArrivals(totalRound, draws);
      ExchangeMoveAge();
      NextRound();
    }

    /** The round counter moves on; everybody in the building arrived before
        the round that starts. */
    method NextRound()
      requires Valid()
      modifies this`totalRound
      ensures Valid() && totalRound == old(totalRound) + 1 && ArrivedBefore(totalRound)
    {
      totalRound := totalRound + 1;
    }

    /** Runs `numRounds` rounds from the starting state and reports the
        statistics; `draws[i]` are the random pairs of round `i`. */
    method Run(numRounds: int, draws: seq<seq<(int, int)>>) returns (stats: Stats)
      requires Valid() && Fresh() && |draws| == numRounds
      requires arrivals.RandomSource? ==>
                 forall i :: 0 <= i < |draws| ==>
                   |draws[i]| == arrivals.random.Count() &&
                   forall j :: 0 <= j < |draws[i]| ==> Legal(draws[i][j], arrivals.random.maxFloor)
      modifies this, Fleet(), Generator(), Scheduled()
      ensures timeRecord != [] && stats == Report(numRounds, totalArrived, totalCompleted, timeRecord)
      ensures arrivals.RandomSource? ==> stats.totalPeople == numRounds * old(arrivals.random.Count())
      ensures stats.minTime <= stats.avgTime <= stats.maxTime
      ensures stats.peopleCompleted == 0 ==> timeRecord == [-1]
      ensures stats.peopleCompleted == 0 ==> stats.maxTime == -1 && stats.minTime == -1 && stats.avgTime == -1
      ensures stats.peopleCompleted > 0 ==> |timeRecord| == stats.peopleCompleted
    {
      var i := 0;
      while i < numRounds
        invariant 0 <= i <= numRounds
        invariant Valid() && totalRound == i && ArrivedBefore(i)
        invariant arrivals.RandomSource? ==>
                    arrivals.random.Count() == old(arrivals.random.Count()) &&
                    totalArrived == i * old(arrivals.random.Count())
        invariant forall q :: q in spot ==> fresh(q) || q in Scheduled()
      {
        Round(draws[i]);
        i := i + 1;
      }
      stats := CalculateStats();
    }
  }
}
