# SnowflakeID in Dafny

A model of `SnowflakeID` from `src/snowflake.ts`, a generator and parser of 64-bit
"snowflake" identifiers. A snowflake is laid out as follows, from the most significant bits down:

- a 42-bit time delta: milliseconds since `EPOCH` = 1420070400000;
- a 5-bit worker id;
- a 5-bit process id;
- a 12-bit increment.

The model has six parts:

- `wrappers.dfy` (module `Wrappers`): the `Option` and `Result` datatypes that the other modules
  use for an unassigned field and for the constructor's errors.
- `bits.dfy` (module `Bits`): BigInt `<<`, `>>`, `&` and `|` on non-negative integers. `&` and `|` are
  defined bit by bit. Lemmas show the facts the layout relies on:
  - a mask of `m` ones is remainder by 2^m;
  - a shifted mask selects a shifted field;
  - `|` of values with no common bit is `+`.
- `layout.dfy` (module `Layout`): the constants of lines 13-27.
  - `Pack` is the sum that `generate` accumulates.
  - `Unpack` is the mask-and-shift extraction of the constructor.
  - Lemmas prove round trips in both directions, that the four summands are disjoint (so `+` is `|`),
    and the 64-bit bound.
- `decimal.dfy` (module `Decimal`): BigInt `toString()`, and the value of a string of decimal digits.
  They are proved to be mutual inverses on canonical digit strings.
- `counter.dfy` (module `Counter`): the counter state machine of `updateIncrement`, as the function
  `Step`. Lemmas show that, as written, the counter never leaves its initial state. The module also
  holds the corrected counter described under "Findings", with a proof that its snowflakes are
  pairwise distinct.
- `snowflake.dfy` (module `Snowflake`): the class itself.
  - The static state becomes a Dafny class `SnowflakeID` with the fields `lastTime: Option<int>`,
    `increment`, `processId` and `workerId`.
  - Its methods `UpdateIncrement` and `Generate` are proved against `Step` and `Pack`.
  - `Construct` is the `new SnowflakeID(arg)` call.
  - An instance is the value `SnowflakeRecord`, computed by the function `Deconstruct`.

The clock is a parameter. `time` is what `Date.now()` returns when `generate` starts. `clock` is the
sequence of readings taken by the busy-wait `while (Date.now() <= time) {}`. The process id and the
cluster worker id are constructor parameters of the Dafny class.

Where the code's own comments and the code disagree, the model follows the code:

- The layout comment of `generate` (lines 72-78) gives the time delta 42 bits, but the code never
  checks that the delta fits them. `Pack` does not truncate it, and `Layout.PackBelow64` gives the
  64-bit bound under that hypothesis.
- The comment of `updateIncrement` (lines 100-103) promises that it prevents collisions. The code
  stores `lastTime` only on the same-millisecond path (line 120), so from the initial state that
  path is never reached. `Counter.Step` and `Snowflake.SnowflakeID.UpdateIncrement` follow the
  code; see "Findings".
- The field comments at lines 41 and 44 say the ids range "from 0 to 32". The 5-bit masks give at
  most 31, and that is what `Layout.UnpackFields` and `Snowflake.Deconstruct` state.

## Model

| member | source | states |
|---|---|---|
| `Bits.ShiftLeft` | src/snowflake.ts:91-93 | No contract of its own: BigInt `<<` on a non-negative value. It is characterised by `Bits.AndShiftedMask`, `Bits.OrDisjointIsSum` (through `Layout.PackIsOr`) and `Layout.PackValue` |
| `Bits.ShiftRight` | src/snowflake.ts:61-65 | No contract of its own: BigInt `>>` on a non-negative value, floor division by 2^n. It is characterised by `Bits.AndShiftedMask`, `Layout.FiveBitField` and `Layout.UnpackFields` |
| `Bits.And` | src/snowflake.ts:62-66 | No contract of its own: BigInt `&` on non-negative values, bit by bit. It is characterised by `Bits.AndLowMask`, `Bits.AndShiftedMask` and `Layout.FiveBitField` |
| `Snowflake.NumberIsNaN` | src/snowflake.ts:57 | No contract of its own: `Number.isNaN(snowflake)`, true of the number NaN only. Its effect, that it rejects no string, is stated by the if-and-only-if clauses of `Snowflake.Deconstruct` |
| `Layout.Pack` | src/snowflake.ts:91-94 | No contract of its own: the sum `generate` accumulates. It is characterised by `Layout.UnpackPack`, `Layout.PackUnpack`, `Layout.PackIsOr`, `Layout.PackInjective` and `Layout.PackBelow64` |
| `Layout.Unpack` | src/snowflake.ts:61-66 | No contract of its own: the mask-and-shift extraction of the constructor. It is characterised by `Layout.UnpackFields`, `Layout.UnpackPack` and `Layout.PackUnpack` |
| `Decimal.Value` | src/snowflake.ts:57-60 | No contract of its own: the exact value `BigInt(s)` reads from a digit string. `Number(s)` is that value rounded to a double, and the model uses it only in `Snowflake.IsSafeIntegerText`. It is characterised by `Decimal.ValueOfToString` and `Decimal.ToStringOfValue` |
| `Snowflake.IsSafeIntegerText` | src/snowflake.ts:57 | No contract of its own: `Number.isSafeInteger(Number(s))` for a digit string, which holds exactly when its value is at most 2^53 - 1. Its effect is stated by the if-and-only-if clauses of `Snowflake.Deconstruct` |
| `Counter.Run` | src/snowflake.ts:108-121 | No contract of its own: `updateIncrement` called with each time in turn. It is characterised by `Counter.RunKeepsBound` and `Counter.RunFromInitial` |
| `Layout.UnpackPack` | src/snowflake.ts:61-66 | Decoding a packed value gives back timestamp = delta + EPOCH, workerId = w mod 32, processId = p mod 32 and the increment, for every delta and every increment up to 4095 |
| `Layout.PackUnpack` | src/snowflake.ts:91-94 | Every value is the packing of its own decoded fields (the other direction of the round trip); its timestamp is at least EPOCH |
| `Layout.UnpackFields` | src/snowflake.ts:61-66 | For every value, the masks and shifts extract base-2 digit groups: workerId = bits 17-21, processId = bits 12-16, increment = bits 0-11, timestamp = value / 2^22 + EPOCH. So workerId and processId are at most 31 and increment at most 4095 |
| `Layout.PackIsOr` | src/snowflake.ts:91-94 | The four summands occupy disjoint bit ranges, so the `+` of generate equals the bitwise OR of the layout |
| `Layout.PackBelow64` | src/snowflake.ts:72-78 | With a delta below 2^42 and an increment up to 4095, the snowflake is below 2^64 |
| `Layout.PackInjective` | src/snowflake.ts:91-94 | Equal snowflakes have equal delta, worker id mod 32, process id mod 32 and increment |
| `Layout.FiveBitField` | src/snowflake.ts:62-65 | Masking with 31 << k and shifting right by k is the value's base-32 digit at bit k |
| `Bits.OrDisjointIsSum` | src/snowflake.ts:91-94 | When two values share no bit, their bitwise OR equals their sum |
| `Bits.AndLowMask` | src/snowflake.ts:66 | `&` with 2^m - 1 is remainder by 2^m |
| `Bits.AndShiftedMask` | src/snowflake.ts:62-65 | `&` with a mask shifted left by k equals, shifted left by k, the `&` of the value shifted right by k with the mask |
| `Decimal.ValueOfToString` | src/snowflake.ts:97 | Reading back the decimal text of n gives n |
| `Decimal.ToStringOfValue` | src/snowflake.ts:60 | The text of the value of a canonical digit string is that string (the inverse direction) |
| `Decimal.ToString` | src/snowflake.ts:97 | toString produces at least one digit, only digits, and no leading zero unless it is "0" |
| `Counter.Step` | src/snowflake.ts:108-121 | After updateIncrement the increment is at most 4095 and is either reset to 0 or old + 1. lastTime never changes, because line 120 only runs when lastTime already equals time |
| `Counter.RunKeepsBound` | src/snowflake.ts:114-115 | After one or more calls the increment stays within 0..4095, whatever the starting state |
| `Counter.RunFromInitial` | src/snowflake.ts:30-31 | From the initial state (lastTime unassigned, increment 0), any sequence of calls leaves lastTime unassigned and the increment 0 |
| `Counter.SameMillisecondCollision` | src/snowflake.ts:109-111 | Two generate calls in the same millisecond of a fresh process pack the same increment, so they give the same snowflake |
| `Counter.StepFixed` | src/snowflake.ts:108-121 | Corrected step: the increment is at most 4095, lastTime is stored on every call, and the stamp uses a millisecond no earlier than the call's |
| `Counter.RunFixedDistinct` | src/snowflake.ts:100-103 | The corrected counter never issues the same (millisecond, increment) pair twice while the clock does not go back |
| `Counter.FixedGeneratesDistinct` | src/snowflake.ts:100-103 | From the initial state, the corrected generator's snowflakes for one worker and process are pairwise distinct |
| `Counter.DistinctStampsDistinctSnowflakes` | src/snowflake.ts:91-94 | Different (millisecond, increment) pairs in range give different snowflakes |
| `Snowflake.Deconstruct` | src/snowflake.ts:54-67 | A non-string is rejected with the type error. It succeeds exactly on digit strings whose value exceeds 2^53 - 1, and rejects a digit string as a safe integer exactly when its value is at most 2^53 - 1. On success it keeps the value, the timestamp is at least EPOCH, the ids are at most 31 and the increment at most 4095 |
| `Snowflake.DeconstructPacked` | src/snowflake.ts:55-66 | The constructor applied to the text of a packed value rejects it if the value is a safe integer, and otherwise returns exactly the packed fields |
| `Snowflake.GeneratedAcceptedIffLateEnough` | src/snowflake.ts:57-58 | A generated snowflake passes the constructor if and only if its time delta is at least 2^31 ms |
| `Snowflake.SnowflakeID.constructor` | src/snowflake.ts:30-33 | Static initial state: lastTime unassigned, increment 0, the two ids as supplied |
| `Snowflake.SnowflakeID.UpdateIncrement` | src/snowflake.ts:108-121 | The new counter state is Step of the old one. The busy-wait reads the clock only when the increment rolls over, and then stops at the first reading past time |
| `Snowflake.SnowflakeID.Generate` | src/snowflake.ts:84-98 | The counter advances by Step. The result is the decimal text of Pack(time - EPOCH, workerId, processId, new increment) |
| `Snowflake.SnowflakeID.Construct` | src/snowflake.ts:54-67 | With an argument, the result is Deconstruct of it and the counter state is unchanged. Without one (or with `undefined`, which JavaScript treats alike), a snowflake is generated first (the counter advances by Step) and then deconstructed |
| `Snowflake.DuplicateWithinMillisecond` | src/snowflake.ts:84-98 | A fresh generator asked twice at the same clock value returns the same string |

## Findings

| source | as written | input that shows it | evidently intended | confidence | as-written member | corrected member |
|---|---|---|---|---|---|---|
| src/snowflake.ts:108-121 | `lastTime` is stored only on the same-millisecond path, which can be reached only once `lastTime` equals `time`. From the initial state `lastTime` stays unassigned and every increment is 0 | a fresh process calls `generate()` twice while `Date.now()` is `EPOCH + 1`, with worker id 1 and process id 1: both calls return `"4329472"` | `lastTime` is stored on every call, so the increment counts up within a millisecond. After the roll-over wait, the snowflake takes the new millisecond (as written it keeps the old `time` and increment 0, which would repeat that millisecond's first id). Then one process never repeats a snowflake while its clock does not go back | high; not executed | `Counter.SameMillisecondCollision` | `Counter.FixedGeneratesDistinct` |

The class `Snowflake.SnowflakeID` keeps the behaviour as written, because it is the model of the code. The corrected step `Counter.StepFixed` and its run `Counter.RunFixed` stand beside it, with their proved uniqueness.

## Left out

- `Date.now()` (lines 85 and 117) is not read. The time is a parameter, and the busy-wait reads a
  given sequence of clock readings. A method that may wait requires that some reading is past `time`.
  A clock that never advances (the source then spins forever) is not modelled.
- The discovery of the process id (`process.pid`) and of the worker id (`cluster`,
  `process.env.NODE_UNIQUE_ID`, lines 8-9 and 32-33) is not modelled. Both ids are opaque natural
  numbers passed to the Dafny constructor.
- Negative time deltas (a clock before `EPOCH`) are not modelled. `Generate` requires
  `time >= EPOCH`.
- Strings that are not plain ASCII decimal digits are not modelled. JavaScript treats them in
  several ways: `Number`/`BigInt` accept hex, octal and binary prefixes, surrounding whitespace and
  (for decimal text) a leading sign, `Number` also accepts exponents, and `BigInt` throws a `SyntaxError` on text such as
  `"abc"`. `Snowflake.Deconstruct` rejects all of these with the single error `NotDecimalText`.
- `Snowflake.Deconstruct`: the timestamp is computed exactly. The source converts `v >> 22` to a double before adding
  `EPOCH`. The two agree while `(v >> 22) + EPOCH` is at most 2^53, which holds far beyond 2^64.
- Concurrency is not modelled: the source is single-threaded JavaScript.
