/**
  The `SnowflakeID` class. Its static side (the counter state and the two
  ids read when the module loads) is the class `SnowflakeID` below, whose
  methods are `updateIncrement`, `generate` and the constructor call; a
  constructed instance only holds fields written once, so it is the value
  `SnowflakeRecord`, computed by `Deconstruct`.

  The wall clock is a parameter: `time` is what `Date.now()` returns when
  `generate` starts, and `clock` the readings the busy-wait of
  `updateIncrement` takes, in order.
 */
module Snowflake {
  import opened Wrappers
  import opened Bits
  import opened Decimal
  import opened Layout
  import opened Counter

  /** `Number.MAX_SAFE_INTEGER`, 2^53 - 1. */
  const MAX_SAFE_INTEGER: nat := 9007199254740991

  /**
    A JavaScript value other than `undefined` handed to the constructor: a
    string, or any other value that is not a string (which may be the number
    NaN).
   */
  datatype JsValue = JsString(s: string) | NonString(isNaN: bool)

  /**
    The constructor's argument. `Omitted` stands for an absent argument and
    for an explicit `undefined` alike: JavaScript applies the default
    `SnowflakeID.generate()` in both cases. `Given` is any other value.
   */
  datatype Argument = Omitted | Given(value: JsValue)

  /** The errors the constructor throws. */
  datatype ConstructError =
    | ExpectsString   // "SnowflakeID() expects bigint converted to string as input."
    | ExpectsBigInt   // "SnowflakeID expects a bigint as input."
    | NotDecimalText  // a string that is not only decimal digits: outside this model

  /** A deconstructed snowflake: the instance fields the constructor writes. */
  datatype SnowflakeRecord = SnowflakeRecord(
    snowflake: nat,
    timestamp: nat,
    processId: nat,
    workerId: nat,
    increment: nat)

  /** `Number.isNaN(x)`: true of the number NaN only, never of a string. */
  predicate NumberIsNaN(x: JsValue)
  {
    x.NonString? && x.isNaN
  }

  /**
    `Number.isSafeInteger(Number(s))` for a digit string: `Number(s)` is the
    value of s rounded to a double, and rounding keeps a value of 2^53 or more
    at 2^53 or more, so the test holds exactly when the value is at most
    2^53 - 1.
   */
  predicate IsSafeIntegerText(s: string)
    requires IsDecimal(s)
  {
    Value(s) <= MAX_SAFE_INTEGER
  }

  /**
    The constructor with an argument: type check, the "looks like a bigint"
    check, then the fields by masks and shifts. It succeeds exactly on digit
    strings whose value exceeds 2^53 - 1, and then the ids are at most 31 and
    the increment at most 4095. A digit string is rejected as a safe integer
    exactly when its value is at most 2^53 - 1: the `Number.isNaN` test never
    holds of a string and rejects nothing.
   */
  function Deconstruct(x: JsValue): (r: Result<SnowflakeRecord, ConstructError>)
    ensures x.NonString? ==> r == Failure(ExpectsString)
    ensures r.Success? <==> x.JsString? && IsDecimal(x.s) && Value(x.s) > MAX_SAFE_INTEGER
    ensures r == Failure(ExpectsBigInt) <==> x.JsString? && IsDecimal(x.s) && Value(x.s) <= MAX_SAFE_INTEGER
    ensures r.Success? ==>
              r.value.snowflake == Value(x.s)
              && r.value.timestamp >= EPOCH
              && r.value.workerId <= 31 && r.value.processId <= 31
              && r.value.increment <= MAX_INCREMENT
  {
    if !x.JsString? then
      Failure(ExpectsString)
    else if !IsDecimal(x.s) then
      Failure(NotDecimalText)
    else if NumberIsNaN(x) || IsSafeIntegerText(x.s) then
      Failure(ExpectsBigInt)
    else
      var v := Value(x.s);
      var f := Unpack(v);
      UnpackFields(v);
      Success(SnowflakeRecord(v, f.timestamp, f.processId, f.workerId, f.increment))
  }

  /**
    Deconstructing the text of a packed value: it is rejected when the value
    is a safe integer, and otherwise gives back the fields that were packed.
   */
  lemma DeconstructPacked(delta: nat, workerId: nat, processId: nat, increment: nat)
    requires increment <= MAX_INCREMENT
    ensures var v := Pack(delta, workerId, processId, increment);
            Deconstruct(JsString(ToString(v)))
            == if v <= MAX_SAFE_INTEGER then Failure(ExpectsBigInt)
               else Success(SnowflakeRecord(v, delta + EPOCH, processId % LIMITER, workerId % LIMITER, increment))
  {
    var v := Pack(delta, workerId, processId, increment);
    ValueOfToString(v);
    UnpackPack(delta, workerId, processId, increment);
  }

  /**
    A generated snowflake survives the constructor exactly when its time delta
    is at least 2^31 ms (about 24.9 days after EPOCH): below that the packed
    value is below 2^53 and the safe-integer check rejects it.
   */
  lemma GeneratedAcceptedIffLateEnough(delta: nat, workerId: nat, processId: nat, increment: nat)
    requires increment <= MAX_INCREMENT
    ensures Deconstruct(JsString(ToString(Pack(delta, workerId, processId, increment)))).Success?
            <==> delta >= 2147483648
  {
    DeconstructPacked(delta, workerId, processId, increment);
    PackValue(delta, workerId, processId, increment);
  }

  /** Some reading of the clock is past time, so the busy-wait ends. */
  predicate ClockPasses(clock: seq<int>, time: int)
  {
    exists i :: 0 <= i < |clock| && clock[i] > time
  }

  /** The static state of `SnowflakeID` and its static methods. */
  class SnowflakeID {
    var lastTime: Option<int>
    var increment: nat
    /** `process.pid`, read once. */
    const processId: nat
    /** The cluster worker id, or 0 outside a cluster, read once. */
    const workerId: nat

    /** The static initialisers: lastTime unassigned, increment 0, the two ids supplied by the host. */
    constructor (processId: nat, workerId: nat)
      ensures State() == Initial
      ensures this.processId == processId && this.workerId == workerId
    {
      this.processId := processId;
      this.workerId := workerId;
      lastTime := None;
      increment := 0;
    }

    function State(): Counter
      reads this
    {
      Counter(lastTime, increment)
    }

    /**
      `updateIncrement(time)`. Returns how many clock readings the busy-wait
      took: none unless the increment rolled over, and then exactly up to the
      first reading past time.
     */
    method UpdateIncrement(time: int, clock: seq<int>) returns (polls: nat)
      requires WillWait(State(), time) ==> ClockPasses(clock, time)
      modifies this
      ensures State() == Step(old(State()), time)
      ensures !WillWait(old(State()), time) ==> polls == 0
      ensures WillWait(old(State()), time) ==>
                1 <= polls <= |clock| && clock[polls - 1] > time
                && forall j :: 0 <= j < polls - 1 ==> clock[j] <= time
    {
      if lastTime != Some(time) {
        increment := 0;
        return 0;
      }
      increment := increment + 1;
      polls := 0;
      if increment > MAX_INCREMENT {
        increment := 0;
        var i := 0;
        while clock[i] <= time
          invariant 0 <= i < |clock|
          invariant forall j :: 0 <= j < i ==> clock[j] <= time
          invariant exists j :: i <= j < |clock| && clock[j] > time
          decreases |clock| - i
        {
          i := i + 1;
        }
        polls := i + 1;
      }
      lastTime := Some(time);
    }

    /**
      `generate()` at clock value time: update the counter, then accumulate
      the four fields and render the sum in decimal.
     */
    method Generate(time: int, clock: seq<int>) returns (s: string)
      requires time >= EPOCH
      requires WillWait(State(), time) ==> ClockPasses(clock, time)
      modifies this
      ensures State() == Step(old(State()), time)
      ensures s == ToString(Pack(time - EPOCH, workerId, processId, increment))
    {
      var _ := UpdateIncrement(time, clock);
      var snowflake := ShiftLeft(time - EPOCH, TIME_SHIFT);
      snowflake := snowflake + ShiftLeft(workerId % LIMITER, WORKER_SHIFT);
      snowflake := snowflake + ShiftLeft(processId % LIMITER, PROCESS_SHIFT);
      snowflake := snowflake + increment;
      s := ToString(snowflake);
    }

    /**
      `new SnowflakeID(arg)`: with no argument the default parameter generates
      a fresh snowflake first (changing the counter); with one, deconstruction
      leaves the counter untouched.
     */
    method Construct(arg: Argument, time: int, clock: seq<int>)
      returns (r: Result<SnowflakeRecord, ConstructError>)
      requires arg.Omitted? ==> time >= EPOCH && (WillWait(State(), time) ==> ClockPasses(clock, time))
      modifies this
      ensures arg.Given? ==> r == Deconstruct(arg.value) && State() == old(State())
      ensures arg.Omitted? ==>
                State() == Step(old(State()), time)
                && r == Deconstruct(JsString(ToString(Pack(time - EPOCH, workerId, processId, increment))))
    {
      var x: JsValue;
      if arg.Omitted? {
        var s := Generate(time, clock);
        x := JsString(s);
      } else {
        x := arg.value;
      }
      r := Deconstruct(x);
    }
  }

  /**
    Two `generate()` calls in the same millisecond of a freshly loaded module
    return the same snowflake.
   */
  method DuplicateWithinMillisecond(processId: nat, workerId: nat, time: int)
    returns (first: string, second: string)
    requires time >= EPOCH
    ensures first == second
  {
    var ids := new SnowflakeID(processId, workerId);
    first := ids.Generate(time, []);
    second := ids.Generate(time, []);
  }
}
