# Elevator simulator — a verified model of the simulation core

This project models the core of a round-based elevator simulator:
- the building has floors `1..numFloors`, a queue of waiting people per floor, and a fleet of elevators with a fixed capacity;
- each round runs five stages in order:
  1. the arrival generator's people join the queue of their start floor;
  2. passengers whose target is their elevator's floor leave, and their wait times are recorded;
  3. each elevator boards people from the head of its floor's queue until it is full or the queue is empty;
  4. a moving algorithm picks a direction for every elevator and moves it;
  5. everybody still in the building waits one more round.

A run ends with statistics: rounds, arrivals, completed trips, and the largest, smallest and floor-mean wait time. When nobody completed a trip, a single wait time of `-1` is recorded first.

Modules:
- `Common` (`common.dfy`): `Option`, distinctness, floors of a building.
- `Entities` (`entities.dfy`): the `Person` and `Elevator` classes. Disembarking is proved to keep exactly the passengers who do not get off, in order.
- `ArrivalGenerators` (`arrivals.dfy`): the two arrival generators.
  - `RandomArrivals` takes its random draws as an input.
  - `FileArrivals` builds a table of rounds from schedule rows that are already decoded.
  - Both are proved to bucket every person under their start floor, losing and duplicating nobody.
- `MovingAlgorithms` (`moving.dfy`): the motion-direction helper and the three moving algorithms.
  - PushyPassenger and ShortSighted are each proved against a pure choice function.
  - Both are proved to keep elevators inside the building.
  - RandomAlgorithm picks any legal direction.
- `Engine` (`simulation.dfy`): the `Simulation` class with its stages, a round, a run and the statistics.
  - A ghost map `spot` records where every person is: a floor's queue, or one elevator. The class invariant `Valid` keeps everybody in at most one place: nobody is in two queues, in a queue and aboard, or aboard two elevators.
  - Pure lemmas show that stages 1 to 3 keep the count `arrived = completed + waiting + riding` (`Engine.ArrivalsBalanced`, `Engine.LeavingBalanced`, `Engine.BoardingBalanced`). Stages 4 and 5 change no queue, passenger list or counter: `MoveElevators` may change only the elevators and keeps every passenger list, and `AgeEveryone` may change only the people's wait times.

## Model

| member | source | states |
|---|---|---|
| Entities.Person.constructor | elevator/entities.py:124-130 | a new person has the given start and target floors and has waited 0 rounds |
| Entities.Person.RecordWait | elevator/entities.py:132-136 | the wait time grows by exactly one |
| Entities.Person.AngerLevel | elevator/entities.py:138-162 | the level lies in 0..4; it is 0 exactly when the wait is at most 2 rounds and 4 exactly when it is at least 9 |
| Entities.AngerLevelClosedForm | elevator/entities.py:138-162 | the level table equals 0 up to 2 rounds, and otherwise `min(4, (wait - 1) / 2)` |
| Entities.AngerLevelMonotone | elevator/entities.py:138-162 | a longer wait never gives a lower anger level |
| Entities.Elevator.constructor | elevator/entities.py:49-59 | a new elevator has the given capacity, no passengers, and is on floor 1 |
| Entities.Elevator.Disembark | elevator/entities.py:61-75 | returns the passengers whose target is the current floor, in boarding order; the others stay aboard in order; the floor does not change |
| Entities.CollectExits | elevator/entities.py:68-71 | the first loop of disembarking collects exactly the passengers for this floor, in order |
| Entities.RemoveEach | elevator/entities.py:73-74 | removing each collected passenger by first occurrence leaves exactly the passengers who stay |
| Entities.RemoveFirst | elevator/entities.py:74 | list removal takes out one occurrence of the person, so the multiset of the rest loses exactly that person; without an occurrence nothing changes |
| Entities.RemoveFirstKeepsOrder | elevator/entities.py:74 | the occurrence taken out is the first one, and the people before and after it stay in their order |
| Entities.FirstIndex | elevator/entities.py:74 | the position found holds the person, and no earlier position does |
| Entities.ExitsStaysPartition | elevator/entities.py:61-75 | the leavers and the stayers together are exactly the passengers, counted with multiplicity |
| Entities.Elevator.Board | elevator/entities.py:77-88 | boards the person at the end exactly when there is room, and reports whether it did; otherwise nothing changes |
| Entities.Elevator.Move | elevator/entities.py:90-97 | the floor changes by the direction; the passengers do not change |
| Entities.Elevator.Fullness | elevator/entities.py:99-104 | the fullness lies in 0..1 and is 0 exactly when the elevator is empty |
| ArrivalGenerators.EmptyQueues | elevator/algorithms.py:111-113 | one empty list for exactly the floors 1..maxFloor |
| ArrivalGenerators.RandomArrivals.constructor | elevator/algorithms.py:48-56 | keeps the maximum floor and the optional person count |
| ArrivalGenerators.RandomArrivals.Generate | elevator/algorithms.py:103-122 | an unset person count becomes 0; every floor of the building gets a bucket; each bucket holds the draws that start on it, in draw order; there are as many people as draws; all are new and have waited 0 rounds |
| ArrivalGenerators.StartingAtWithin | elevator/algorithms.py:115-120 | a bucket only holds draws from the input |
| ArrivalGenerators.BucketsHoldEveryone | elevator/algorithms.py:115-120 | when every draw starts on a floor of the building, the buckets hold all draws, none twice |
| ArrivalGenerators.HeadcountOfBuckets | elevator/algorithms.py:115-120 | the people bucketed per floor number as many as the draws bucketed per floor |
| ArrivalGenerators.FiledHeadcount | elevator/algorithms.py:115-120 | buckets that file all the draws hold exactly as many people as there are draws |
| ArrivalGenerators.LastRow | elevator/algorithms.py:161-164 | a row found for a round is one of the rows and starts with the round number |
| ArrivalGenerators.LastRowNone | elevator/algorithms.py:161-164 | no row is found for a round exactly when no row starts with its number |
| ArrivalGenerators.LastRowIsLast | elevator/algorithms.py:161-164 | the row found starts a position after which no row starts with the round number, so a later row for a round replaces an earlier one |
| ArrivalGenerators.ReadRow | elevator/algorithms.py:162-175 | one row becomes one bucket per floor; the row's pairs are filed under their start floors in row order; every person is new and has waited 0 rounds |
| ArrivalGenerators.ScheduleAddRow | elevator/algorithms.py:163-175 | adding a row replaces its round's entry, keeps every other round, and records the round of each new person |
| ArrivalGenerators.AddRow | elevator/algorithms.py:163-175 | one more row read keeps the table in step with the rows read so far, where a later row for a round replaces an earlier one; only the row's round changes, and its people have waited 0 rounds |
| ArrivalGenerators.FileArrivals.constructor | elevator/algorithms.py:144-175 | the table holds, for every round with a row, the last such row's people bucketed by start floor, all of them waiting 0 rounds; the person count is unset |
| ArrivalGenerators.FileArrivals.Generate | elevator/algorithms.py:177-185 | a round without a row gives no arrivals; otherwise it gives that round's buckets, filed from its last row |
| ArrivalGenerators.FileArrivals.GenerateDisjointRounds | elevator/algorithms.py:159-175 | two different rounds never hand out the same person |
| MovingAlgorithms.DirectionOf | elevator/algorithms.py:191-201 | the direction member for a step of -1, 0 or 1 stands for that step |
| MovingAlgorithms.MotionDirection | elevator/algorithms.py:208-221 | the step is in -1..1; it is 0 exactly when there is no target, and 1 exactly when the elevator is below the target |
| MovingAlgorithms.MotionDirectionAtOwnFloor | elevator/algorithms.py:216-221 | with the target at the elevator's own floor the step is down, which would take an elevator on floor 1 out of the building |
| MovingAlgorithms.MotionDirectionApproaches | elevator/algorithms.py:216-221 | for a different target floor, one step brings the elevator exactly one floor closer |
| MovingAlgorithms.MotionDirectionInBuilding | elevator/algorithms.py:233-235 | moving toward a floor of the building other than the current one stays in the building |
| MovingAlgorithms.LowestWaiting | elevator/algorithms.py:290-296 | finds a floor with someone waiting, lower than every other such floor, and finds none only when nobody waits |
| MovingAlgorithms.PushyPassenger | elevator/algorithms.py:276-304 | each elevator takes the PushyPassenger choice and moves by it; passengers are unchanged; one direction per elevator, in order |
| MovingAlgorithms.PushyStaysInBuilding | elevator/algorithms.py:233-235 | the PushyPassenger choice never moves a ready elevator out of the building |
| MovingAlgorithms.PushyPrefersLowestFloor | elevator/algorithms.py:266-270 | with people on floors 2 and 4 only, an empty elevator heads for floor 2 from floor 3 and from floor 1 |
| MovingAlgorithms.NearestIsNearest | elevator/algorithms.py:336-376 | the scan finds nothing only when there are no candidates; otherwise it finds a candidate that is no farther than any other, and the lower one on a tie |
| MovingAlgorithms.NearestUnique | elevator/algorithms.py:351-356 | only one candidate is nearest in this sense, so the result does not depend on the scan order |
| MovingAlgorithms.WaitingFloors | elevator/algorithms.py:340-342 | lists only floors in range with someone waiting |
| MovingAlgorithms.WaitingFloorsComplete | elevator/algorithms.py:340-342 | lists every floor in range with someone waiting |
| MovingAlgorithms.Targets | elevator/algorithms.py:364-365 | the passengers' targets, in boarding order |
| MovingAlgorithms.ShortSighted | elevator/algorithms.py:319-384 | each elevator takes the ShortSighted choice and moves by it; passengers are unchanged; one direction per elevator, in order |
| MovingAlgorithms.ShortSightedStaysInBuilding | elevator/algorithms.py:233-235 | the ShortSighted choice never moves a ready elevator out of the building |
| MovingAlgorithms.RandomAlgorithm | elevator/algorithms.py:244-263 | each elevator moves by a direction that keeps it inside the building; passengers are unchanged |
| Engine.PlacedOnce | elevator/simulation.py:29-45 | when everybody is where `spot` says, nobody is in two queues, at two positions, both queuing and aboard, or aboard two elevators |
| Engine.NewFleet | elevator/simulation.py:59-62 | the requested number of new, distinct, empty elevators on floor 1 (none for a negative number) |
| Engine.Simulation.constructor | elevator/simulation.py:48-66 | counters zero, no wait times, empty queues for exactly the floors 1..numFloors, fresh empty elevators on floor 1, and the count of people balanced |
| Engine.Simulation.GenerateArrivals | elevator/simulation.py:120-133 | each floor's queue is extended by that floor's arrivals; arrivals grow by the number generated, which is the number of draws for a random source; a schedule yields its round's entry |
| Engine.Simulation.Produce | elevator/simulation.py:127 | the generated people fit the building and are not yet in it |
| Engine.JoinQueues | elevator/simulation.py:130-133 | every queue becomes itself followed by its floor's arrivals; the number added is the number generated |
| Engine.Simulation.Admit | elevator/simulation.py:129-133 | the arrivals join their queues and are counted, and nobody is in two places |
| Engine.Simulation.HandleLeaving | elevator/simulation.py:137-151 | elevator by elevator, the passengers for the elevator's floor leave; one wait time per leaver is appended, in order; the completed count grows by the number of leavers; floors are unchanged |
| Engine.Simulation.LeaveAll | elevator/simulation.py:143-151 | the stage 2 loop: after all elevators the lists and the record are those of the whole stage |
| Engine.Simulation.RecordLeft | elevator/simulation.py:147-151 | the leavers' wait times are appended in order and the completed count grows by their number |
| Engine.Simulation.AppendWaits | elevator/simulation.py:147-149 | appends the wait times of the leavers, in order |
| Engine.AwayAfterLeaving | elevator/simulation.py:143-151 | after stage 2 nobody aboard wants the floor their elevator is on |
| Engine.Room | elevator/simulation.py:161-172 | the number who board is at most the queue length, never overfills, and stops short only when the elevator is full |
| Engine.Boarding | elevator/simulation.py:161-172 | the boarders are a prefix of the queue, appended to the passengers; the queue keeps the rest; boarding stops only when the queue is empty or the elevator full |
| Engine.BoardingExact | elevator/simulation.py:162-172 | a boarding loop that stops when the queue is empty or at the first refusal has boarded exactly what `Boarding` describes |
| Engine.Simulation.BoardAt | elevator/simulation.py:162-172 | the boarding loop at one elevator yields the `Boarding` outcome for its floor's queue |
| Engine.Simulation.HandleBoarding | elevator/simulation.py:153-172 | the lists and queues afterwards are the elevator-by-elevator boarding outcome, where elevators on one floor share its queue; afterwards every elevator is ready to move |
| Engine.ReadyAll | elevator/simulation.py:153-172 | after stage 3 every elevator satisfies what the moving algorithms rely on to stay in the building |
| Engine.Simulation.MoveElevators | elevator/simulation.py:174-182 | every elevator moves by its direction and stays in the building; passengers are unchanged; each algorithm's choice is applied |
| Engine.Simulation.Dispatch | elevator/simulation.py:179-182 | the configured algorithm runs on the fleet; the new floors are the old ones moved by the directions |
| Engine.RecordWaits | elevator/simulation.py:105-106 | each of the given people waits one more round |
| Engine.AgeQueues | elevator/simulation.py:104-106 | everybody queuing waits one more round; nobody aboard is touched |
| Engine.AgeRiders | elevator/simulation.py:108-110 | every passenger waits one more round; nobody queuing is touched |
| Engine.Simulation.AgeEveryone | elevator/simulation.py:103-110 | everybody queuing and every passenger waits exactly one more round |
| Engine.Largest | elevator/simulation.py:199 | the largest wait time is one of the times and no time exceeds it |
| Engine.Smallest | elevator/simulation.py:200 | the smallest wait time is one of the times and no time is below it |
| Engine.TotalBounds | elevator/simulation.py:201-202 | a sum of values between two bounds lies between the count times each bound |
| Engine.FloorBetween | elevator/simulation.py:201-202 | the floor of the mean lies between the smallest and the largest value |
| Engine.Report | elevator/simulation.py:195-203 | the report carries the counters; its maximum and minimum are attained bounds of the wait times; the floor mean lies between them |
| Engine.Simulation.CalculateStats | elevator/simulation.py:187-203 | an empty record gets the single time -1 first, and then all three times are -1; otherwise the record is kept; the statistics report it |
| Engine.Simulation.ExchangePassengers | elevator/simulation.py:94-98 | stages 2 and 3 keep the class invariant and bring nobody in; afterwards every elevator is ready to move |
| Engine.Simulation.ExchangeMoveAge | elevator/simulation.py:94-110 | stages 2 to 5 keep the class invariant and bring nobody new into the building |
| Engine.Simulation.NextRound | elevator/simulation.py:112-113 | the round counter grows by one |
| Engine.Simulation.Round | elevator/simulation.py:89-113 | one round keeps the class invariant and moves the round counter on by one; a random source adds exactly its person count to the arrivals |
| Engine.Simulation.Run | elevator/simulation.py:77-118 | from the starting state, `numRounds` rounds and then the report of the run; a random source has brought in `numRounds` times its count; the mean lies between the minimum and maximum; with no trip completed the record is the single -1 and all three times read -1, otherwise there is one recorded wait per completed trip |
| Engine.HeadcountJoined | elevator/simulation.py:130-133 | after stage 1 the queues hold what they held before plus the people generated |
| Engine.RidersAfterLeaving | elevator/simulation.py:143-151 | stage 2 takes exactly the leavers off the elevators |
| Engine.BoardFromConserves | elevator/simulation.py:161-172 | stage 3 moves people from queues onto elevators, so the queues and elevators together hold the same number |
| Engine.ArrivalsBalanced | elevator/simulation.py:120-133 | stage 1, as `GenerateArrivals` states it, keeps arrived = completed + waiting + riding |
| Engine.LeavingBalanced | elevator/simulation.py:137-151 | stage 2, as `HandleLeaving` states it, keeps arrived = completed + waiting + riding |
| Engine.BoardingBalanced | elevator/simulation.py:153-172 | stage 3, as `HandleBoarding` states it, keeps arrived = completed + waiting + riding |
| Engine.HeadcountEmpty | elevator/simulation.py:64-66 | empty queues hold nobody |
| Engine.RidersEmpty | elevator/simulation.py:59-62 | empty elevators carry nobody |

## Left out

- Visualizer calls (`render_header`, `wait`, `show_arrivals`, `show_disembarking`, `show_boarding`, `show_elevator_moves`) and the sprite base classes: these are only presentation and pacing.
- Reading the CSV file: the `FileArrivals` constructor takes its rows already decoded to integers. `WellFormedRow` states what the source assumes of a valid file: a round number, then whole start/target pairs whose start floors are in the building.
- `Engine.Simulation.constructor`: requires `LegalRows` of a schedule, so every pair has its target in `1..numFloors` and different from its start. It also requires both generators to have `maxFloor <= numFloors`. The source reads any such file without complaint, and the model leaves out what follows:
  - A pair `(1, 1)` boards, and `get_motion_direction(1, 1)` then sends the elevator to floor 0. The next round's lookup of the queue of floor 0 raises `KeyError`.
  - A target above the top floor drives an elevator out of the building.
  - A generator with `max_floor > num_floors` raises `KeyError` when its arrivals join the queues.
  - Everything `Engine.Simulation.MoveElevators` states about staying in the building holds only under these requirements.
- `MovingAlgorithms.PushyPassenger`: the source finds the lowest waiting floor by scanning the dictionary `waiting` in insertion order. The model scans floors `1..maxFloor` upward (`IsRegistry`). This is the same for the simulation's own registry, which is built in ascending order. For a caller's dictionary built in another order, such as floor 4 before floor 2, the source picks the first non-empty floor in that order, which the model does not capture. The same holds for the order in which `MovingAlgorithms.ShortSighted` meets tied candidates, which changes nothing because the nearest candidate is unique (`NearestUnique`).
- Randomness is an input:
  - `RandomArrivals.Generate` takes its `(start, target)` draws as a parameter, each with `target != start` as the redraw loop ensures.
  - `RandomAlgorithm` chooses each direction by a nondeterministic `:|` among the legal ones, the condition on which the source's redraw loop stops.
- `sample_run` and the `python_ta` blocks: these are configuration and linting, not simulation.
- The `config` dictionary: `Engine.Simulation.constructor` takes the number of floors, the number of elevators, the capacity, an arrival source and a moving policy as parameters.
- The abstract `ArrivalGenerator.generate` and `MovingAlgorithm.move_elevators` are modelled as the closed datatypes `ArrivalSource` and `MovingPolicy`.
- The `RandomArrivals` initializer is spelled `__init` in the source, so it never runs and the inherited initializer runs instead. `ArrivalGenerators.RandomArrivals.constructor` models the inherited one, which has the same effect.
- `Entities.Elevator.Fullness`: modelled as an exact `real`, not a floating-point ratio. Only its comparison with 0 is used.
- `MovingAlgorithms.ShortSighted`: the starting distance 2147483647 is modelled as `None` (no candidate yet). The two agree whenever every floor difference is below 2147483647 (2^31 - 1) in absolute value. At a difference of exactly +2147483647 the source keeps its starting value and stays, while the model moves up.
- The representation invariant `1 <= floor <= 6` of the source's elevator docstring is generalised to `1 <= floor <= numFloors`.
- `Engine.Simulation.Run`: requires the starting state (`Fresh`). A second run on the same object, which the source's docstring promises starts from the same initial state but the code does not reset, is not modelled.
- `Engine.Simulation.Run`: does not state the count `arrived = completed + waiting + riding` for the final state. The count is proved stage by stage (`Engine.ArrivalsBalanced`, `Engine.LeavingBalanced`, `Engine.BoardingBalanced`) against the stages' contracts, and for the starting state by the constructor. It is not carried through `Round` as part of the class invariant.
- `MovingAlgorithms.PushyPassenger`, `MovingAlgorithms.ShortSighted`, `MovingAlgorithms.RandomAlgorithm`: require the elevators to be distinct objects (`Distinct`), which the source does not check. A list naming the same elevator twice, which would move it twice, is not modelled; the simulation's own fleet always meets the requirement (`FleetOK` in `Valid`).
- `Engine.Simulation.Run`: for a schedule source, the total arrivals are not related to the schedule's rows.
- `Engine.Simulation.Round`: states the class invariant, the round counter and a random source's arrival total. The contents of queues and elevators are stated by the stage methods it calls, not by `Round` itself.
- `Engine.Simulation.ExchangeMoveAge`: states only the class invariant and that nobody new enters. Its parts `ExchangePassengers`, `MoveElevators` and `AgeEveryone` state the contents.
- `Engine.Simulation.ExchangePassengers`: states only the class invariant and readiness to move. `HandleLeaving` and `HandleBoarding` state the contents.
- `MovingAlgorithms.RandomAlgorithm`: states only that each direction is legal, since the choice is random.
- `Entities.Elevator.Move`: performs no range check, like the source. Keeping the floor in range is proved for the policies (`PushyStaysInBuilding`, `ShortSightedStaysInBuilding`) and for `Engine.Simulation.MoveElevators`.
- Python's `//` in the mean wait time matches Dafny's `/` here because the divisor, the number of recorded times, is positive.
