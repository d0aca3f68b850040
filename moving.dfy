/** Elevator moving algorithms: each decides one direction per elevator from
    the current snapshot, moves the elevator, and returns the directions. */
module MovingAlgorithms {
  import opened Common
  import opened Entities

  datatype Direction = Up | Stay | Down

  /** The floor change a direction stands for. */
  function Delta(d: Direction): int
  {
    match d
    case Up => 1
    case Stay => 0
    case Down => -1
  }

  /** Python's `Direction(step)`: the enum member whose value is `step`. */
  function DirectionOf(step: int): (d: Direction)
    requires -1 <= step <= 1
    ensures Delta(d) == step
  {
    if step == 1 then Up else if step == 0 then Stay else Down
  }

  /** Up when the elevator is below the target, no move without a target,
      and down otherwise -- including when the elevator is already there. */
  function MotionDirection(elevatorFloor: int, targetFloor: Option<int>): (step: int)
    ensures -1 <= step <= 1
    ensures targetFloor.None? <==> step == 0
    ensures step == 1 <==> targetFloor.Some? && elevatorFloor < targetFloor.value
  {
    match targetFloor
    case None => 0
    case Some(t) => if elevatorFloor - t < 0 then 1 else -1
  }

  /** A step toward a different floor brings the elevator one floor closer,
      and so never overshoots it. */
  lemma MotionDirectionApproaches(elevatorFloor: int, target: int)
    requires elevatorFloor != target
    ensures Abs(elevatorFloor + MotionDirection(elevatorFloor, Some(target)) - target)
            == Abs(elevatorFloor - target) - 1
  {
  }

  /** Moving toward a floor of the building other than the current one keeps
      an elevator inside the building. */
  lemma MotionDirectionInBuilding(elevatorFloor: int, target: Option<int>, maxFloor: int)
    requires IsFloor(elevatorFloor, maxFloor)
    requires target.Some? ==> IsFloor(target.value, maxFloor) && target.value != elevatorFloor
    ensures IsFloor(elevatorFloor + MotionDirection(elevatorFloor, target), maxFloor)
  {
  }

  /** The boundary case: asked to move toward its own floor, an elevator is
      sent down, so on floor 1 it would leave the building. The policies avoid
      this only because no candidate floor equals the elevator's floor when
      they are called. */
  lemma MotionDirectionAtOwnFloor(f: int, maxFloor: int)
    ensures MotionDirection(f, Some(f)) == -1
    ensures f == 1 ==> !IsFloor(f + MotionDirection(f, Some(f)), maxFloor)
  {
  }

  /** Someone is waiting on floor `f`. */
  predicate HasWaiting(waiting: map<int, seq<Person>>, f: int)
  {
    f in waiting && |waiting[f]| > 0
  }

  /** The waiting registry holds a queue for exactly the floors 1..maxFloor;
      it is built in ascending order, so scanning it visits floors upward. */
  ghost predicate IsRegistry(waiting: map<int, seq<Person>>, maxFloor: int)
  {
    forall f :: f in waiting <==> IsFloor(f, maxFloor)
  }

  // ---------------------------------------------------------------------------
  // PushyPassenger
  // ---------------------------------------------------------------------------

  /** The lowest floor in `from..maxFloor` with someone waiting, if any. */
  function LowestWaiting(waiting: map<int, seq<Person>>, from: int, maxFloor: int): (r: Option<int>)
    decreases maxFloor - from
    ensures r.Some? ==> from <= r.value <= maxFloor && HasWaiting(waiting, r.value)
    ensures forall f :: from <= f <= maxFloor && HasWaiting(waiting, f) ==> r.Some? && r.value <= f
  {
    if from > maxFloor then None
    else if HasWaiting(waiting, from) then Some(from)
    else LowestWaiting(waiting, from + 1, maxFloor)
  }

  /** PushyPassenger's decision for one elevator: an empty elevator heads for
      the lowest floor with someone waiting; otherwise it heads for the target
      of its first passenger, whatever the others want. */
  function PushyChoice(floor: int, passengers: seq<Person>, waiting: map<int, seq<Person>>, maxFloor: int): Direction
  {
    if passengers == [] then DirectionOf(MotionDirection(floor, LowestWaiting(waiting, 1, maxFloor)))
    else DirectionOf(MotionDirection(floor, Some(passengers[0].target)))
  }

  /** The state every elevator is in when the moving stage runs: on a floor of
      the building, no passenger wants the current floor (they have just left),
      every passenger wants a floor of the building, and an empty elevator has
      nobody waiting on its own floor (they would have boarded). */
  ghost predicate ReadyToMove(floor: int, passengers: seq<Person>, waiting: map<int, seq<Person>>, maxFloor: int)
  {
    && IsFloor(floor, maxFloor)
    && (forall i :: 0 <= i < |passengers| ==> IsFloor(passengers[i].target, maxFloor) && passengers[i].target != floor)
    && (passengers == [] ==> !HasWaiting(waiting, floor))
  }

  /** PushyPassenger never moves an elevator out of the building. */
  lemma PushyStaysInBuilding(floor: int, passengers: seq<Person>, waiting: map<int, seq<Person>>, maxFloor: int)
    requires ReadyToMove(floor, passengers, waiting, maxFloor)
    ensures IsFloor(floor + Delta(PushyChoice(floor, passengers, waiting, maxFloor)), maxFloor)
  {
    if passengers == [] {
      MotionDirectionInBuilding(floor, LowestWaiting(waiting, 1, maxFloor), maxFloor);
    } else {
      MotionDirectionInBuilding(floor, Some(passengers[0].target), maxFloor);
    }
  }

  /** Scenario: an empty elevator, people waiting on floors 4 and 2 only: it
      heads for floor 2, the lowest of them, not floor 4. */
  lemma PushyPrefersLowestFloor(p: Person, q: Person)
    ensures var waiting := map[1 := [], 2 := [p], 3 := [], 4 := [q], 5 := []];
            PushyChoice(3, [], waiting, 5) == Down && PushyChoice(1, [], waiting, 5) == Up
  {
    var waiting := map[1 := [], 2 := [p], 3 := [], 4 := [q], 5 := []];
    assert !HasWaiting(waiting, 1) && HasWaiting(waiting, 2);
    assert LowestWaiting(waiting, 1, 5) == Some(2);
  }

  method PushyPassenger(elevators: seq<Elevator>, waiting: map<int, seq<Person>>, maxFloor: int)
    returns (directions: seq<Direction>)
    requires Distinct(elevators)
    requires forall e :: e in elevators ==> e.Valid()
    requires IsRegistry(waiting, maxFloor)
    modifies set e | e in elevators
    ensures |directions| == |elevators|
    ensures forall i :: 0 <= i < |elevators| ==>
              && directions[i] == PushyChoice(old(elevators[i].floor), old(elevators[i].passengers), waiting, maxFloor)
              && elevators[i].floor == old(elevators[i].floor) + Delta(directions[i])
              && elevators[i].passengers == old(elevators[i].passengers)
  {
    directions := [];
    var i := 0;
    while i < |elevators|
      invariant 0 <= i <= |elevators| && |directions| == i
      invariant forall j :: 0 <= j < i ==>
                  && directions[j] == PushyChoice(old(elevators[j].floor), old(elevators[j].passengers), waiting, maxFloor)
                  && elevators[j].floor == old(elevators[j].floor) + Delta(directions[j])
                  && elevators[j].passengers == old(elevators[j].passengers)
      invariant forall j :: i <= j < |elevators| ==>
                  elevators[j].floor == old(elevators[j].floor) && elevators[j].passengers == old(elevators[j].passengers)
    {
      var elevator := elevators[i];
      assert elevator.Valid() by { assert elevator in elevators; }
      var direction := 0;
      if elevator.Fullness() == 0.0 {
        var floor := 1;
        while floor <= maxFloor
          invariant 1 <= floor <= maxFloor + 1 || maxFloor < 1
          invariant LowestWaiting(waiting, floor, maxFloor) == LowestWaiting(waiting, 1, maxFloor)
          invariant direction == 0
        {
          if |waiting[floor]| > 0 {
            direction := MotionDirection(elevator.floor, Some(floor));
            break;
          }
          floor := floor + 1;
        }
      } else {
        direction := MotionDirection(elevator.floor, Some(elevator.passengers[0].target));
      }
      elevator.Move(direction);
      directions := directions + [DirectionOf(direction)];
      i := i + 1;
    }
  }

  // ---------------------------------------------------------------------------
  // ShortSighted
  // ---------------------------------------------------------------------------

  /** One step of ShortSighted's scan: a candidate replaces the best so far
      when it is strictly closer, or equally close and below it. */
  function Closer(floor: int, best: Option<int>, candidate: int): Option<int>
  {
    match best
    case None => Some(candidate)
    case Some(b) =>
      if Abs(candidate - floor) < Abs(b - floor) then Some(candidate)
      else if Abs(candidate - floor) == Abs(b - floor) && candidate - floor < b - floor then Some(candidate)
      else best
  }

  /** The result of scanning `candidates` in order with `Closer`. */
  function Nearest(floor: int, candidates: seq<int>): Option<int>
  {
    if candidates == [] then None
    else Closer(floor, Nearest(floor, candidates[..|candidates| - 1]), candidates[|candidates| - 1])
  }

  /** `t` is at least as close to `floor` as `c`, and below it on a tie. */
  ghost predicate NoFartherThan(floor: int, t: int, c: int)
  {
    Abs(t - floor) < Abs(c - floor) || (Abs(t - floor) == Abs(c - floor) && t <= c)
  }

  /** The scan finds the candidate nearest to `floor`, preferring the lower one
      of two equally near; it finds nothing only when there are no candidates. */
  lemma {:induction false} NearestIsNearest(floor: int, candidates: seq<int>)
    ensures Nearest(floor, candidates).None? <==> candidates == []
    ensures Nearest(floor, candidates).Some? ==>
              && Nearest(floor, candidates).value in candidates
              && forall c :: c in candidates ==> NoFartherThan(floor, Nearest(floor, candidates).value, c)
  {
    if candidates != [] {
      var init, last := candidates[..|candidates| - 1], candidates[|candidates| - 1];
      assert candidates == init + [last];
      NearestIsNearest(floor, init);
      var t := Nearest(floor, candidates).value;
      assert t == last || t in init;
      forall c | c in candidates
        ensures NoFartherThan(floor, t, c)
      {
        if c in init {
          var b := Nearest(floor, init).value;
          assert NoFartherThan(floor, b, c);
          assert NoFartherThan(floor, t, b);
          NoFartherThanTransitive(floor, t, b, c);
        }
      }
    }
  }

  lemma NoFartherThanTransitive(floor: int, a: int, b: int, c: int)
    requires NoFartherThan(floor, a, b) && NoFartherThan(floor, b, c)
    ensures NoFartherThan(floor, a, c)
  {
  }

  /** Only one candidate is nearest in this sense, so the scan order does not
      matter. */
  lemma NearestUnique(floor: int, t: int, u: int)
    requires NoFartherThan(floor, t, u) && NoFartherThan(floor, u, t)
    ensures t == u
  {
  }

  /** The floors in 1..upTo with someone waiting, in ascending order. */
  function WaitingFloors(waiting: map<int, seq<Person>>, upTo: int): (r: seq<int>)
    decreases upTo
    ensures forall i :: 0 <= i < |r| ==> 1 <= r[i] <= upTo && HasWaiting(waiting, r[i])
  {
    if upTo < 1 then []
    else WaitingFloors(waiting, upTo - 1) + (if HasWaiting(waiting, upTo) then [upTo] else [])
  }

  lemma {:induction false} WaitingFloorsComplete(waiting: map<int, seq<Person>>, upTo: int, f: int)
    requires 1 <= f <= upTo && HasWaiting(waiting, f)
    ensures f in WaitingFloors(waiting, upTo)
    decreases upTo
  {
    if f < upTo {
      WaitingFloorsComplete(waiting, upTo - 1, f);
    }
  }

  /** The targets of the passengers, in boarding order. */
  function Targets(passengers: seq<Person>): (r: seq<int>)
    ensures |r| == |passengers|
    ensures forall i :: 0 <= i < |r| ==> r[i] == passengers[i].target
  {
    seq(|passengers|, i requires 0 <= i < |passengers| => passengers[i].target)
  }

  /** ShortSighted's decision for one elevator: an empty elevator heads for
      the nearest floor with someone waiting; otherwise for the nearest target
      among all its passengers. Ties go to the lower floor. */
  function ShortSightedChoice(floor: int, passengers: seq<Person>, waiting: map<int, seq<Person>>, maxFloor: int): Direction
  {
    if passengers == [] then DirectionOf(MotionDirection(floor, Nearest(floor, WaitingFloors(waiting, maxFloor))))
    else DirectionOf(MotionDirection(floor, Nearest(floor, Targets(passengers))))
  }

  /** ShortSighted never moves an elevator out of the building. */
  lemma ShortSightedStaysInBuilding(floor: int, passengers: seq<Person>, waiting: map<int, seq<Person>>, maxFloor: int)
    requires ReadyToMove(floor, passengers, waiting, maxFloor)
    ensures IsFloor(floor + Delta(ShortSightedChoice(floor, passengers, waiting, maxFloor)), maxFloor)
  {
    var candidates := if passengers == [] then WaitingFloors(waiting, maxFloor) else Targets(passengers);
    NearestIsNearest(floor, candidates);
    var t := Nearest(floor, candidates);
    if t.Some? {
      var k :| 0 <= k < |candidates| && candidates[k] == t.value;
    }
    MotionDirectionInBuilding(floor, t, maxFloor);
  }

  /** Scanning one more candidate. */
  lemma NearestSnoc(floor: int, candidates: seq<int>, c: int)
    ensures Nearest(floor, candidates + [c]) == Closer(floor, Nearest(floor, candidates), c)
  {
    assert (candidates + [c])[..|candidates|] == candidates;
  }

  method ShortSighted(elevators: seq<Elevator>, waiting: map<int, seq<Person>>, maxFloor: int)
    returns (directions: seq<Direction>)
    requires Distinct(elevators)
    requires forall e :: e in elevators ==> e.Valid()
    requires IsRegistry(waiting, maxFloor)
    modifies set e | e in elevators
    ensures |directions| == |elevators|
    ensures forall i :: 0 <= i < |elevators| ==>
              && directions[i] == ShortSightedChoice(old(elevators[i].floor), old(elevators[i].passengers), waiting, maxFloor)
              && elevators[i].floor == old(elevators[i].floor) + Delta(directions[i])
              && elevators[i].passengers == old(elevators[i].passengers)
  {
    directions := [];
    var i := 0;
    while i < |elevators|
      invariant 0 <= i <= |elevators| && |directions| == i
      invariant forall j :: 0 <= j < i ==>
                  && directions[j] == ShortSightedChoice(old(elevators[j].floor), old(elevators[j].passengers), waiting, maxFloor)
                  && elevators[j].floor == old(elevators[j].floor) + Delta(directions[j])
                  && elevators[j].passengers == old(elevators[j].passengers)
      invariant forall j :: i <= j < |elevators| ==>
                  elevators[j].floor == old(elevators[j].floor) && elevators[j].passengers == old(elevators[j].passengers)
    {
      var elevator := elevators[i];
      assert elevator.Valid() by { assert elevator in elevators; }
      var target: Option<int> := None;
      if elevator.Fullness() == 0.0 {
        var floor := 1;
        while floor <= maxFloor
          invariant 1 <= floor <= maxFloor + 1 || maxFloor < 1
          invariant target == Nearest(elevator.floor, WaitingFloors(waiting, floor - 1))
        {
          if |waiting[floor]| > 0 {
            assert HasWaiting(waiting, floor);
            assert WaitingFloors(waiting, floor) == WaitingFloors(waiting, floor - 1) + [floor];
            assert Closer(elevator.floor, target, floor) == Nearest(elevator.floor, WaitingFloors(waiting, floor)) by {
              NearestSnoc(elevator.floor, WaitingFloors(waiting, floor - 1), floor);
            }
            target := Closer(elevator.floor, target, floor);
          } else {
            assert !HasWaiting(waiting, floor);
            assert WaitingFloors(waiting, floor) == WaitingFloors(waiting, floor - 1) + [];
            assert WaitingFloors(waiting, floor) == WaitingFloors(waiting, floor - 1);
          }
          floor := floor + 1;
        }
        assert maxFloor < 1 ==> WaitingFloors(waiting, maxFloor) == [] == WaitingFloors(waiting, floor - 1);
        assert target == Nearest(elevator.floor, WaitingFloors(waiting, maxFloor));
        assert elevator.passengers == [];
      } else {
        var k := 0;
        while k < |elevator.passengers|
          invariant 0 <= k <= |elevator.passengers|
          invariant target == Nearest(elevator.floor, Targets(elevator.passengers[..k]))
        {
          assert Targets(elevator.passengers[..k + 1]) == Targets(elevator.passengers[..k]) + [elevator.passengers[k].target];
          assert Closer(elevator.floor, target, elevator.passengers[k].target)
              == Nearest(elevator.floor, Targets(elevator.passengers[..k + 1])) by {
            NearestSnoc(elevator.floor, Targets(elevator.passengers[..k]), elevator.passengers[k].target);
          }
          target := Closer(elevator.floor, target, elevator.passengers[k].target);
          k := k + 1;
        }
        assert elevator.passengers[..k] == elevator.passengers;
        assert target == Nearest(elevator.floor, Targets(elevator.passengers));
        assert elevator.passengers != [];
      }
      var direction := MotionDirection(elevator.floor, target);
      assert DirectionOf(direction) == ShortSightedChoice(elevator.floor, elevator.passengers, waiting, maxFloor);
      assert elevator.floor == old(elevator.floor) && elevator.passengers == old(elevator.passengers);
      elevator.Move(direction);
      directions := directions + [DirectionOf(direction)];
      i := i + 1;
    }
  }

  // ---------------------------------------------------------------------------
  // RandomAlgorithm
  // ---------------------------------------------------------------------------

  /** Each elevator takes a direction chosen among those that keep it inside
      the building; which one is left open (the source draws it at random and
      redraws until it is legal). */
  method RandomAlgorithm(elevators: seq<Elevator>, waiting: map<int, seq<Person>>, maxFloor: int)
    returns (directions: seq<Direction>)
    requires Distinct(elevators)
    requires forall e :: e in elevators ==> IsFloor(e.floor, maxFloor)
    modifies set e | e in elevators
    ensures |directions| == |elevators|
    ensures forall i :: 0 <= i < |elevators| ==>
              && elevators[i].floor == old(elevators[i].floor) + Delta(directions[i])
              && IsFloor(elevators[i].floor, maxFloor)
              && elevators[i].passengers == old(elevators[i].passengers)
  {
    directions := [];
    var i := 0;
    while i < |elevators|
      invariant 0 <= i <= |elevators| && |directions| == i
      invariant forall j :: 0 <= j < i ==>
                  && elevators[j].floor == old(elevators[j].floor) + Delta(directions[j])
                  && IsFloor(elevators[j].floor, maxFloor)
                  && elevators[j].passengers == old(elevators[j].passengers)
      invariant forall j :: i <= j < |elevators| ==>
                  elevators[j].floor == old(elevators[j].floor) && elevators[j].passengers == old(elevators[j].passengers)
    {
      var elevator := elevators[i];
      assert IsFloor(elevator.floor + 0, maxFloor) by { assert elevator in elevators; }
      var direction :| -1 <= direction <= 1 && 1 <= elevator.floor + direction <= maxFloor;
      elevator.Move(direction);
      directions := directions + [DirectionOf(direction)];
      i := i + 1;
    }
  }
}
