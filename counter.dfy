/**
  The per-process increment counter of `SnowflakeID.updateIncrement`, as a
  state machine over the pair (lastTime, increment), and the corrected
  counter that the method's documentation describes.
 */
module Counter {
  import opened Wrappers
  import opened Layout

  /**
    The static counter state: `lastTime` is a JavaScript field that starts
    unassigned (None) and `increment` starts at 0.
   */
  datatype Counter = Counter(lastTime: Option<int>, increment: nat)

  /** The state when the module is loaded. */
  const Initial: Counter := Counter(None, 0)

  /** The busy-wait runs: the same millisecond as lastTime, and counting up passes 4095. */
  predicate WillWait(c: Counter, time: int)
  {
    c.lastTime == Some(time) && c.increment + 1 > MAX_INCREMENT
  }

  /**
    The effect of `updateIncrement(time)` on the counter, as written: a time
    other than lastTime resets the increment and returns at once; the same
    time counts up, rolls over past 4095 and then stores time in lastTime.
    Since that store only happens when lastTime already equals time, lastTime
    never changes.
   */
  function Step(c: Counter, time: int): (r: Counter)
    ensures r.increment <= MAX_INCREMENT
    ensures r.lastTime == c.lastTime
    ensures r.increment == 0 || r.increment == c.increment + 1
  {
    if c.lastTime != Some(time) then
      Counter(c.lastTime, 0)
    else
      var next := c.increment + 1;
      Counter(Some(time), if next > MAX_INCREMENT then 0 else next)
  }

  /** The counter after `updateIncrement` has been called with each time in turn. */
  function Run(c: Counter, times: seq<int>): Counter
    decreases |times|
  {
    if times == [] then c else Run(Step(c, times[0]), times[1..])
  }

  /** Whatever the state, after one or more calls the increment is within 0..4095. */
  lemma {:induction false} RunKeepsBound(c: Counter, times: seq<int>)
    requires times != [] || c.increment <= MAX_INCREMENT
    ensures Run(c, times).increment <= MAX_INCREMENT
    decreases |times|
  {
    if times != [] {
      RunKeepsBound(Step(c, times[0]), times[1..]);
    }
  }

  /**
    What the code delivers: from the initial state, any sequence of calls
    leaves lastTime unassigned and the increment 0, so every snowflake the
    process generates has increment 0.
   */
  lemma {:induction false} RunFromInitial(times: seq<int>)
    ensures Run(Initial, times) == Initial
  {
    if times != [] {
      assert Step(Initial, times[0]) == Initial;
      RunFromInitial(times[1..]);
    }
  }

  /**
    The consequence: two snowflakes generated in the same millisecond by a
    freshly loaded process are equal.
   */
  lemma SameMillisecondCollision(time: int, workerId: nat, processId: nat)
    requires time >= EPOCH
    ensures var first := Step(Initial, time);
            var second := Step(first, time);
            Pack(time - EPOCH, workerId, processId, first.increment)
            == Pack(time - EPOCH, workerId, processId, second.increment)
  {
  }

  /** The (millisecond, increment) pair a snowflake of one process carries. */
  datatype Stamp = Stamp(time: int, increment: nat)

  /** Two clock readings: `now` when generation starts, `after` the first reading past it. */
  datatype Reading = Reading(now: int, after: int)

  /**
    The corrected counter step: lastTime is stored on every call, and when
    the increment rolls over the snowflake takes the millisecond the wait
    ended on instead of the one it started in.
   */
  function StepFixed(c: Counter, r: Reading): (res: (Counter, Stamp))
    requires r.after > r.now
    ensures res.0.increment <= MAX_INCREMENT
    ensures res.0.lastTime == Some(res.1.time) && res.0.increment == res.1.increment
    ensures res.1.time >= r.now
  {
    if c.lastTime != Some(r.now) then
      (Counter(Some(r.now), 0), Stamp(r.now, 0))
    else if c.increment + 1 > MAX_INCREMENT then
      (Counter(Some(r.after), 0), Stamp(r.after, 0))
    else
      (Counter(Some(r.now), c.increment + 1), Stamp(r.now, c.increment + 1))
  }

  /** Every call reads a clock that has not gone back past the last stored millisecond. */
  predicate ClockMonotone(c: Counter, readings: seq<Reading>)
    decreases |readings|
  {
    readings == [] ||
    (readings[0].after > readings[0].now
     && (c.lastTime.Some? ==> readings[0].now >= c.lastTime.value)
     && ClockMonotone(StepFixed(c, readings[0]).0, readings[1..]))
  }

  /** The stamps of the corrected generator over a run of calls. */
  function RunFixed(c: Counter, readings: seq<Reading>): seq<Stamp>
    requires ClockMonotone(c, readings)
    decreases |readings|
  {
    if readings == [] then []
    else
      var (next, stamp) := StepFixed(c, readings[0]);
      [stamp] + RunFixed(next, readings[1..])
  }

  /** Every stamp already issued lies before the counter: an earlier millisecond, or this one at a lower or equal increment. */
  predicate Behind(c: Counter, issued: seq<Stamp>)
  {
    forall k :: 0 <= k < |issued| ==>
      c.lastTime.Some? &&
      (issued[k].time < c.lastTime.value ||
       (issued[k].time == c.lastTime.value && issued[k].increment <= c.increment))
  }

  predicate Distinct(stamps: seq<Stamp>)
  {
    forall i, j :: 0 <= i < j < |stamps| ==> stamps[i] != stamps[j]
  }

  /** One corrected step issues a stamp that is new and keeps every stamp behind the counter. */
  lemma StepFixedIssuesNew(c: Counter, issued: seq<Stamp>, r: Reading)
    requires Behind(c, issued)
    requires r.after > r.now
    requires c.lastTime.Some? ==> r.now >= c.lastTime.value
    ensures StepFixed(c, r).1 !in issued
    ensures Behind(StepFixed(c, r).0, issued + [StepFixed(c, r).1])
  {
  }

  /** The corrected generator never issues the same stamp twice while the clock does not go back. */
  lemma {:induction false} RunFixedDistinct(c: Counter, issued: seq<Stamp>, readings: seq<Reading>)
    requires Behind(c, issued) && Distinct(issued)
    requires ClockMonotone(c, readings)
    ensures Distinct(issued + RunFixed(c, readings))
    decreases |readings|
  {
    if readings != [] {
      var (next, stamp) := StepFixed(c, readings[0]);
      StepFixedIssuesNew(c, issued, readings[0]);
      RunFixedDistinct(next, issued + [stamp], readings[1..]);
      assert issued + RunFixed(c, readings) == (issued + [stamp]) + RunFixed(next, readings[1..]);
    }
  }

  /**
    The property the documentation of `updateIncrement` promises, for the
    corrected counter: from the initial state, the snowflakes of one process
    are pairwise distinct.
   */
  lemma FixedGeneratesDistinct(readings: seq<Reading>, workerId: nat, processId: nat)
    requires ClockMonotone(Initial, readings)
    requires forall k :: 0 <= k < |readings| ==> readings[k].now >= EPOCH
    ensures var stamps := RunFixed(Initial, readings);
            forall i, j :: 0 <= i < j < |stamps| ==>
              stamps[i].time >= EPOCH && stamps[j].time >= EPOCH &&
              SnowflakeOf(stamps[i], workerId, processId) != SnowflakeOf(stamps[j], workerId, processId)
  {
    var stamps := RunFixed(Initial, readings);
    RunFixedDistinct(Initial, [], readings);
    assert [] + stamps == stamps;
    RunFixedAfter(Initial, readings);
    forall i, j | 0 <= i < j < |stamps|
      ensures stamps[i].time >= EPOCH && stamps[j].time >= EPOCH
      ensures SnowflakeOf(stamps[i], workerId, processId) != SnowflakeOf(stamps[j], workerId, processId)
    {
      assert readings[i].now >= EPOCH && readings[j].now >= EPOCH;
      DistinctStampsDistinctSnowflakes(stamps[i], stamps[j], workerId, processId);
    }
  }

  /** The snowflake value generated with a stamp. */
  function SnowflakeOf(s: Stamp, workerId: nat, processId: nat): nat
    requires s.time >= EPOCH
  {
    Pack(s.time - EPOCH, workerId, processId, s.increment)
  }

  /** Distinct stamps in range give distinct snowflakes for the same worker and process. */
  lemma DistinctStampsDistinctSnowflakes(s1: Stamp, s2: Stamp, workerId: nat, processId: nat)
    requires s1 != s2
    requires s1.time >= EPOCH && s2.time >= EPOCH
    requires s1.increment <= MAX_INCREMENT && s2.increment <= MAX_INCREMENT
    ensures SnowflakeOf(s1, workerId, processId) != SnowflakeOf(s2, workerId, processId)
  {
    if SnowflakeOf(s1, workerId, processId) == SnowflakeOf(s2, workerId, processId) {
      PackInjective(s1.time - EPOCH, workerId, processId, s1.increment,
                    s2.time - EPOCH, workerId, processId, s2.increment);
    }
  }

  /** Each stamp of a corrected run is in range and no earlier than its call's reading. */
  lemma {:induction false} RunFixedAfter(c: Counter, readings: seq<Reading>)
    requires ClockMonotone(c, readings)
    ensures |RunFixed(c, readings)| == |readings|
    ensures forall k :: 0 <= k < |readings| ==>
              RunFixed(c, readings)[k].time >= readings[k].now
              && RunFixed(c, readings)[k].increment <= MAX_INCREMENT
    decreases |readings|
  {
    if readings != [] {
      RunFixedAfter(StepFixed(c, readings[0]).0, readings[1..]);
    }
  }
}
