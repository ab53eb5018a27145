/** `self.processed_count += 1` in `FileProcessor._process_single_file`, run by
    several worker threads at once with no lock. The statement is a read of
    the field followed by a write of the value read plus one; the threads'
    reads and writes interleave in any order. */
module CounterRace {

  /** One thread's read of the counter, or its write of what it read plus one. */
  datatype Access = Load(thread: nat) | Store(thread: nat)

  /** The counter and the value each thread has read. */
  datatype Counter = Counter(count: int, loaded: map<nat, int>)

  function Perform(c: Counter, a: Access): Counter
  {
    match a
    case Load(t) => Counter(c.count, c.loaded[t := c.count])
    case Store(t) => if t in c.loaded then Counter(c.loaded[t] + 1, c.loaded) else c
  }

  /** The counter after the accesses, in order. */
  function Interleave(c: Counter, schedule: seq<Access>): Counter
    decreases |schedule|
  {
    if schedule == [] then c else Interleave(Perform(c, schedule[0]), schedule[1..])
  }

  function Stores(schedule: seq<Access>): nat
  {
    if schedule == [] then 0 else (if schedule[0].Store? then 1 else 0) + Stores(schedule[1..])
  }

  /** No value read, and no count, exceeds the start plus the writes done. */
  predicate Bounded(c: Counter, start: int, done: nat)
  {
    c.count <= start + done && forall t :: t in c.loaded ==> c.loaded[t] <= start + done
  }

  /** Unlocked increments can only lose updates: whatever the interleaving,
      the counter ends at most at its start plus the number of writes. */
  lemma {:induction false} NeverOvercounts(c: Counter, schedule: seq<Access>, start: int, done: nat)
    requires Bounded(c, start, done)
    ensures Interleave(c, schedule).count <= start + done + Stores(schedule)
    decreases |schedule|
  {
    if schedule != [] {
      var next := Perform(c, schedule[0]);
      var done' := done + if schedule[0].Store? then 1 else 0;
      assert Bounded(next, start, done');
      NeverOvercounts(next, schedule[1..], start, done');
    }
  }

  /** Two threads each increment once; both read before either writes. */
  const LostUpdateSchedule: seq<Access> := [Load(0), Load(1), Store(0), Store(1)]

  /** The interleaving above ends with the counter at 1 after two files,
      so the progress count runs behind the files actually processed. */
  lemma LostUpdate()
    ensures Stores(LostUpdateSchedule) == 2
    ensures Interleave(Counter(0, map[]), LostUpdateSchedule).count == 1
  {
    var c1 := Perform(Counter(0, map[]), Load(0));
    var c2 := Perform(c1, Load(1));
    var c3 := Perform(c2, Store(0));
    assert c3.count == 1;
    var c4 := Perform(c3, Store(1));
    assert c4.count == 1;
    assert LostUpdateSchedule[1..][1..][1..][1..] == [];
  }

  /** The schedules a lock around the increment allows: each thread's read is
      immediately followed by its own write. */
  predicate Locked(schedule: seq<Access>)
    decreases |schedule|
  {
    schedule == []
    || (|schedule| >= 2 && schedule[0].Load? && schedule[1] == Store(schedule[0].thread)
        && Locked(schedule[2..]))
  }

  /** Under a lock every increment counts: the counter ends at its start plus
      the number of increments. */
  lemma {:induction false} LockedCountsAll(c: Counter, schedule: seq<Access>)
    requires Locked(schedule)
    ensures Interleave(c, schedule).count == c.count + Stores(schedule)
    decreases |schedule|
  {
    if schedule != [] {
      var t := schedule[0].thread;
      var c1 := Perform(c, Load(t));
      var c2 := Perform(c1, Store(t));
      assert c2.count == c.count + 1;
      assert schedule[1..][1..] == schedule[2..];
      LockedCountsAll(c2, schedule[2..]);
    }
  }

  /** The lock-protected increment of `n` threads, one after the other. */
  function Serial(threads: seq<nat>): (schedule: seq<Access>)
    ensures Locked(schedule) && Stores(schedule) == |threads|
  {
    if threads == [] then []
    else
      var rest := Serial(threads[1..]);
      var s := [Load(threads[0]), Store(threads[0])] + rest;
      assert s[2..] == rest && s[1..][1..] == rest;
      s
  }
}
