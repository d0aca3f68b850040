/** The two entities of the simulation: people and elevators. */
module Entities {
  import opened Common

  /** A person in the building. `start` and `target` are fixed when the person
      is created; the wait time grows by one each round they wait or ride. */
  class Person {
    const start: int
    const target: int
    var waitTime: int

    constructor (start: int, target: int)
      ensures this.start == start && this.target == target
      ensures waitTime == 0
    {
      this.start := start;
      this.target := target;
      waitTime := 0;
    }

    method RecordWait()
      modifies this
      ensures waitTime == old(waitTime) + 1
    {
      waitTime := waitTime + 1;
    }

    /** The anger level: a step function of the wait time, two rounds per level
        after the first three, capped at 4. */
    function AngerLevel(): (level: int)
      reads this
      ensures 0 <= level <= 4
      ensures level == 0 <==> waitTime <= 2
      ensures level == 4 <==> waitTime >= 9
    {
      if waitTime <= 2 then 0
      else if 3 <= waitTime <= 4 then 1
      else if 5 <= waitTime <= 6 then 2
      else if 7 <= waitTime <= 8 then 3
      else 4
    }
  }

  /** The anger level equals a closed form: `(w - 1) / 2` capped at 4 once
      the person has waited more than two rounds. */
  lemma AngerLevelClosedForm(p: Person)
    ensures p.AngerLevel() == if p.waitTime <= 2 then 0 else Min(4, (p.waitTime - 1) / 2)
  {
  }

  /** Waiting longer never makes a person less angry. */
  lemma AngerLevelMonotone(p: Person, q: Person)
    requires p.waitTime <= q.waitTime
    ensures p.AngerLevel() <= q.AngerLevel()
  {
  }

  /** The passengers of `ps` whose target is `floor`, in boarding order. */
  function Exits(ps: seq<Person>, floor: int): (r: seq<Person>)
    ensures |r| <= |ps|
    ensures forall i :: 0 <= i < |r| ==> r[i].target == floor && r[i] in ps
  {
    if ps == [] then []
    else (if ps[0].target == floor then [ps[0]] else []) + Exits(ps[1..], floor)
  }

  /** The passengers of `ps` whose target is not `floor`, in boarding order. */
  function Stays(ps: seq<Person>, floor: int): (r: seq<Person>)
    ensures |r| <= |ps|
    ensures forall i :: 0 <= i < |r| ==> r[i].target != floor && r[i] in ps
  {
    if ps == [] then []
    else (if ps[0].target != floor then [ps[0]] else []) + Stays(ps[1..], floor)
  }

  lemma Regroup(x: seq<Person>, y: seq<Person>, z: seq<Person>)
    ensures x + (y + z) == (x + y) + z
  {
  }

  lemma {:induction false} ExitsAppend(a: seq<Person>, b: seq<Person>, floor: int)
    ensures Exits(a + b, floor) == Exits(a, floor) + Exits(b, floor)
  {
    if a != [] {
      var head := if a[0].target == floor then [a[0]] else [];
      assert (a + b)[0] == a[0] && (a + b)[1..] == a[1..] + b;
      ExitsAppend(a[1..], b, floor);
      calc {
        Exits(a + b, floor);
        head + Exits(a[1..] + b, floor);
        head + (Exits(a[1..], floor) + Exits(b, floor));
        { Regroup(head, Exits(a[1..], floor), Exits(b, floor)); }
        (head + Exits(a[1..], floor)) + Exits(b, floor);
      }
    } else {
      assert a + b == b;
    }
  }

  lemma {:induction false} StaysAppend(a: seq<Person>, b: seq<Person>, floor: int)
    ensures Stays(a + b, floor) == Stays(a, floor) + Stays(b, floor)
  {
    if a != [] {
      var head := if a[0].target != floor then [a[0]] else [];
      assert (a + b)[0] == a[0] && (a + b)[1..] == a[1..] + b;
      StaysAppend(a[1..], b, floor);
      calc {
        Stays(a + b, floor);
        head + Stays(a[1..] + b, floor);
        head + (Stays(a[1..], floor) + Stays(b, floor));
        { Regroup(head, Stays(a[1..], floor), Stays(b, floor)); }
        (head + Stays(a[1..], floor)) + Stays(b, floor);
      }
    } else {
      assert a + b == b;
    }
  }

  /** Leaving and staying split the passengers: together they are exactly the
      passengers, counted with multiplicity. */
  lemma {:induction false} ExitsStaysPartition(ps: seq<Person>, floor: int)
    ensures multiset(Exits(ps, floor)) + multiset(Stays(ps, floor)) == multiset(ps)
  {
    if ps != [] {
      ExitsStaysPartition(ps[1..], floor);
      ExitsStaysHead(ps, floor);
      assert multiset(ps) == multiset{ps[0]} + multiset(ps[1..]) by {
        assert ps == [ps[0]] + ps[1..];
      }
    }
  }

  /** The first passenger goes to exactly one side of the split. */
  lemma ExitsStaysHead(ps: seq<Person>, floor: int)
    requires ps != []
    ensures multiset(Exits(ps, floor)) + multiset(Stays(ps, floor))
            == multiset{ps[0]} + multiset(Exits(ps[1..], floor)) + multiset(Stays(ps[1..], floor))
  {
    if ps[0].target == floor {
      assert Exits(ps, floor) == [ps[0]] + Exits(ps[1..], floor);
    } else {
      assert Stays(ps, floor) == [ps[0]] + Stays(ps[1..], floor);
    }
  }

  /** If every passenger stays, the staying list is the whole list. */
  lemma {:induction false} StaysAll(ps: seq<Person>, floor: int)
    requires |Stays(ps, floor)| == |ps|
    ensures Stays(ps, floor) == ps
  {
    if ps != [] {
      StaysAll(ps[1..], floor);
    }
  }

  lemma {:induction false} StaysDistinct(ps: seq<Person>, floor: int)
    requires Distinct(ps)
    ensures Distinct(Stays(ps, floor))
  {
    if ps != [] {
      assert Distinct(ps[1..]);
      StaysDistinct(ps[1..], floor);
      assert ps[0] !in ps[1..];
      ExitsStaysPartition(ps[1..], floor);
      assert multiset(ps[1..])[ps[0]] == 0;
      assert ps[0] !in multiset(Stays(ps[1..], floor));
    }
  }

  /** The position of the first occurrence of `p` in `s`. */
  function FirstIndex(s: seq<Person>, p: Person): (k: nat)
    requires p in s
    ensures k < |s| && s[k] == p && p !in s[..k]
  {
    if s[0] == p then 0
    else
      var k := FirstIndex(s[1..], p) + 1;
      assert s[..k] == [s[0]] + s[1..][..k - 1];
      k
  }

  /** Python's `list.remove`: drop the first occurrence of `p`. */
  function RemoveFirst(s: seq<Person>, p: Person): (r: seq<Person>)
    ensures p in s ==> multiset(r) == multiset(s) - multiset{p}
    ensures p !in s ==> r == s
  {
    if s == [] then []
    else if s[0] == p then assert s == [s[0]] + s[1..]; s[1..]
    else assert s == [s[0]] + s[1..]; [s[0]] + RemoveFirst(s[1..], p)
  }

  /** The removal takes out exactly the first occurrence and keeps the
      others in order. */
  lemma {:induction false} RemoveFirstKeepsOrder(s: seq<Person>, p: Person)
    requires p in s
    ensures RemoveFirst(s, p) == s[..FirstIndex(s, p)] + s[FirstIndex(s, p) + 1..]
  {
    if s[0] == p {
      assert s[..0] + s[1..] == s[1..];
    } else {
      var t := s[1..];
      assert s == [s[0]] + t;
      var k := FirstIndex(t, p);
      assert FirstIndex(s, p) == k + 1;
      assert RemoveFirst(s, p) == [s[0]] + RemoveFirst(t, p);
      RemoveFirstKeepsOrder(t, p);
      DropAfterHead(s[0], t, k);
    }
  }

  /** Dropping the element at `k + 1` of `[x] + t` is dropping the one at `k` of `t`. */
  lemma DropAfterHead(x: Person, t: seq<Person>, k: nat)
    requires k < |t|
    ensures ([x] + t)[..k + 1] + ([x] + t)[k + 2..] == [x] + (t[..k] + t[k + 1..])
  {
    assert ([x] + t)[..k + 1] == [x] + t[..k];
    assert ([x] + t)[k + 2..] == t[k + 1..];
  }

  /** Removing a leaving passenger does not disturb the staying ones. */
  lemma {:induction false} StaysRemoveFirst(s: seq<Person>, p: Person, floor: int)
    requires p.target == floor
    ensures Stays(RemoveFirst(s, p), floor) == Stays(s, floor)
  {
    if s != [] && s[0] != p {
      StaysRemoveFirst(s[1..], p, floor);
      assert ([s[0]] + RemoveFirst(s[1..], p))[1..] == RemoveFirst(s[1..], p);
    }
  }

  /** Scanning one more passenger extends the leaving list by at most that passenger. */
  lemma ExitsSnoc(s: seq<Person>, i: int, floor: int)
    requires 0 <= i < |s|
    ensures Exits(s[..i + 1], floor) == Exits(s[..i], floor) + if s[i].target == floor then [s[i]] else []
  {
    assert s[..i + 1] == s[..i] + [s[i]];
    ExitsAppend(s[..i], [s[i]], floor);
    assert Exits([s[i]], floor) == (if s[i].target == floor then [s[i]] else []) + Exits([], floor);
  }

  lemma MultisetTakeOne(m: multiset<Person>, stay: multiset<Person>, p: Person, rest: multiset<Person>)
    requires m == stay + multiset{p} + rest
    ensures p in m && m - multiset{p} == stay + rest
  {
  }

  /** One step of removing the leaving passengers one by one. */
  lemma RemoveLeavingStep(s: seq<Person>, leaving: seq<Person>, k: int, floor: int)
    requires 0 <= k < |leaving|
    requires leaving[k].target == floor
    requires multiset(s) == multiset(Stays(s, floor)) + multiset(leaving[k..])
    ensures Stays(RemoveFirst(s, leaving[k]), floor) == Stays(s, floor)
    ensures multiset(RemoveFirst(s, leaving[k])) == multiset(Stays(s, floor)) + multiset(leaving[k + 1..])
  {
    var p := leaving[k];
    SuffixSplit(leaving, k);
    MultisetTakeOne(multiset(s), multiset(Stays(s, floor)), p, multiset(leaving[k + 1..]));
    StaysRemoveFirst(s, p, floor);
  }

  lemma SuffixSplit(s: seq<Person>, k: int)
    requires 0 <= k < |s|
    ensures multiset(s[k..]) == multiset{s[k]} + multiset(s[k + 1..])
  {
    assert s[k..] == [s[k]] + s[k + 1..];
  }

  /** Before any removal, the passengers are the staying ones plus all leaving ones. */
  lemma RemovalStart(s: seq<Person>, leaving: seq<Person>, floor: int)
    requires leaving == Exits(s, floor)
    ensures forall j :: 0 <= j < |leaving| ==> leaving[j].target == floor
    ensures multiset(s) == multiset(Stays(s, floor)) + multiset(leaving[0..])
  {
    ExitsStaysPartition(s, floor);
    assert leaving[0..] == leaving;
  }

  /** Once only the staying passengers are left, they are exactly the staying list. */
  lemma StaysFromMultiset(s: seq<Person>, before: seq<Person>, floor: int)
    requires Stays(s, floor) == Stays(before, floor)
    requires multiset(s) == multiset(Stays(before, floor))
    ensures s == Stays(before, floor)
  {
    assert |s| == |multiset(s)| == |Stays(before, floor)|;
    StaysAll(s, floor);
  }

  /** The first loop of disembarking: scan the passengers in boarding order
      and collect those whose target is `floor`. */
  method CollectExits(ps: seq<Person>, floor: int) returns (leaving: seq<Person>)
    ensures leaving == Exits(ps, floor)
  {
    leaving := [];
    var i := 0;
    while i < |ps|
      invariant 0 <= i <= |ps|
      invariant leaving == Exits(ps[..i], floor)
    {
      ExitsSnoc(ps, i, floor);
      if floor == ps[i].target {
        leaving := leaving + [ps[i]];
      }
      i := i + 1;
    }
    assert ps[..i] == ps;
  }

  /** The second loop of disembarking: remove each collected passenger, first
      occurrence first; what remains are exactly the staying passengers. */
  method RemoveEach(ps: seq<Person>, leaving: seq<Person>, floor: int) returns (rest: seq<Person>)
    requires leaving == Exits(ps, floor)
    ensures rest == Stays(ps, floor)
  {
    RemovalStart(ps, leaving, floor);
    rest := ps;
    var k := 0;
    while k < |leaving|
      invariant 0 <= k <= |leaving|
      invariant Stays(rest, floor) == Stays(ps, floor)
      invariant multiset(rest) == multiset(Stays(ps, floor)) + multiset(leaving[k..])
    {
      RemoveLeavingStep(rest, leaving, k, floor);
      rest := RemoveFirst(rest, leaving[k]);
      k := k + 1;
    }
    StaysFromMultiset(rest, ps, floor);
  }

  /** An elevator: its passengers in boarding order, its floor and its fixed
      capacity. */
  class Elevator {
    var passengers: seq<Person>
    var floor: int
    const capacity: int

    /** The elevator never holds more people than its capacity. */
    ghost predicate Valid()
      reads this
    {
      1 <= capacity && |passengers| <= capacity
    }

    constructor (capacity: int)
      requires capacity >= 1
      ensures Valid()
      ensures this.capacity == capacity && floor == 1 && passengers == []
    {
      this.capacity := capacity;
      passengers := [];
      floor := 1;
    }

    /** Remove and return the passengers whose target is the current floor. */
    method Disembark() returns (leaving: seq<Person>)
      requires Valid()
      modifies this
      ensures Valid() && floor == old(floor)
      ensures leaving == Exits(old(passengers), floor)
      ensures passengers == Stays(old(passengers), floor)
    {
      leaving := CollectExits(passengers, floor);
      passengers := RemoveEach(passengers, leaving, floor);
    }

    /** Board `p` if there is room; report whether it happened. */
    method Board(p: Person) returns (boarded: bool)
      requires Valid()
      modifies this
      ensures Valid() && floor == old(floor)
      ensures boarded <==> |old(passengers)| < capacity
      ensures passengers == if boarded then old(passengers) + [p] else old(passengers)
    {
      if |passengers| < capacity {
        passengers := passengers + [p];
        boarded := true;
      } else {
        boarded := false;
      }
    }

    /** Move by `direction` floors; the dispatch policy keeps this in range. */
    method Move(direction: int)
      modifies this
      ensures floor == old(floor) + direction
      ensures passengers == old(passengers)
    {
      floor := floor + direction;
    }

    /** How full the elevator is, as a fraction of its capacity. */
    function Fullness(): (r: real)
      reads this
      requires Valid()
      ensures 0.0 <= r <= 1.0
      ensures r == 0.0 <==> passengers == []
    {
      (|passengers| as real) / (capacity as real)
    }
  }
}
